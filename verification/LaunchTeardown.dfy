/**
 Reclaiming: after a process has ended or the task was cancelled, what is torn down when
 nothing more happens by itself, and that this point is reached.
 */
module LaunchTeardown {
  import opened Basics
  import opened LaunchProtocol
  import opened LaunchInvariants
  import opened LaunchTheorems

  predicate InLoop(t: Target) { Looping(t.m.h) }

  /** The periodic heartbeat of a handler in its loop: the one activity of a healthy task. */
  predicate Beat(s: State, st: Step) {
    st.Local? && st.a == K(KRetry) && st.i < |s.ts| && InLoop(s.ts[st.i])
  }

  /** What every state of a run whose timers are served on time satisfies. */
  ghost predicate Kept(s: State, t: Target) {
    TargetInv(s.cancelled, t) && Pulse(s.cancelled, t)
  }

  /** Nothing but healthy heartbeats can happen without the environment. */
  ghost predicate Settled(s: State) {
    Spawned(s) && forall st :: InternalStep(st) && Enabled(s, st) ==> Beat(s, st)
  }

  /** NkeepMaster waits to send on a full sendNodeChan that its handler has stopped reading. */
  predicate Parked(t: Target) { t.m.h == HJoining && t.m.k == KSend && t.m.send.Some? }

  /** The node's handler left its loop on a failed write without cancelling. */
  predicate Deaf(t: Target) { t.d.n == NJoining && !t.d.cancelled }

  /** NcountMaster waits to send on a full sendNodeChan. */
  predicate BarrierParked(s: State) {
    s.barrier.Releasing? && s.barrier.next < |s.ts| && s.ts[s.barrier.next].m.send.Some?
  }

  /** Both ends closed, no process left, the node's context cancelled. */
  predicate Down(t: Target) {
    && t.m.h == HClosed
    && (t.d.n == NClosed || (t.d.n == NIdle && !t.sent))
    && (t.d.p == PNone || t.d.p == PReaped)
    && (t.d.t != TIdle ==> t.d.cancelled)
  }

  // ---- one target of a settled task -------------------------------------------------

  ghost predicate LocalSettled(s: State, t: Target) {
    forall a :: Internal(a) && Guard(s, t, a) ==> a == K(KRetry) && InLoop(t)
  }

  lemma SettledLocally(s: State, i: nat)
    requires Settled(s) && i < |s.ts|
    ensures LocalSettled(s, s.ts[i])
  {
    forall a | Internal(a) && Guard(s, s.ts[i], a) ensures a == K(KRetry) && InLoop(s.ts[i]) {
      assert Enabled(s, Local(i, a)) && InternalStep(Local(i, a));
      assert Beat(s, Local(i, a));
    }
  }

  lemma HandlerPastGreeting(s: State, t: Target)
    requires Kept(s, t) && LocalSettled(s, t)
    ensures t.m.h != HConnecting && t.m.h != HGreeting
  {
    assert t.m.h == HConnecting ==> HGuard(s, t, Connect) && Guard(s, t, H(Connect));
    assert !Guard(s, t, H(Greet)) && !Guard(s, t, H(GreetRefused)) && !Guard(s, t, N(Accept));
  }

  lemma HandlerNotSignalling(s: State, t: Target)
    requires Kept(s, t) && LocalSettled(s, t)
    requires t.m.h == HSignalN ==> s.queued < |s.ts|
    ensures t.m.h != HSignalN && t.m.h != HSignalK
  {
    HeartbeatRoom(s.cancelled, t);
    assert !Guard(s, t, H(SignalN)) && !Guard(s, t, H(SignalK));
  }

  /** A cancelled task's handler has closed its connection unless its NkeepMaster is parked. */
  lemma HandlerGone(s: State, t: Target)
    requires Kept(s, t) && LocalSettled(s, t) && s.cancelled
    requires t.m.h == HSignalN ==> s.queued < |s.ts|
    ensures t.m.h == HClosed || Parked(t)
  {
    HandlerPastGreeting(s, t);
    HandlerNotSignalling(s, t);
    assert !Guard(s, t, H(HDone)) && !Guard(s, t, H(HClose));
    assert !Guard(s, t, K(KDone)) && !Guard(s, t, K(KBeat));
  }

  /** An uncancelled handler outside its loop is one that never got into it. */
  lemma HandlerOutOfLoop(s: State, t: Target)
    requires Kept(s, t) && LocalSettled(s, t) && !s.cancelled && !InLoop(t)
    ensures t.m.h == HClosed && t.m.signals == 0
  {
    HandlerPastGreeting(s, t);
    assert !Guard(s, t, K(KRetry)) && !Guard(s, t, K(KTimeout)) && !Guard(s, t, K(KBeat));
  }

  /** The process of a node whose context is cancelled is gone. */
  lemma ProcessGone(s: State, t: Target)
    requires Kept(s, t) && LocalSettled(s, t) && t.d.cancelled && t.d.p != PNone
    ensures t.d.p == PReaped && t.d.x == XLeft
  {
    assert !Guard(s, t, P(Obey)) && !Guard(s, t, P(Reap)) && !Guard(s, t, P(Term)) && !Guard(s, t, P(Leave));
  }

  /** NkeepWorker and TimingWrapper of a node whose context is cancelled have finished. */
  lemma WorkersGone(s: State, t: Target)
    requires Kept(s, t) && LocalSettled(s, t) && t.d.cancelled && t.d.t != TIdle
    ensures t.d.t == TDone && t.d.w == WLeft
  {
    HeartbeatRoom(s.cancelled, t);
    assert !Guard(s, t, W(StartOk)) && !Guard(s, t, W(SendIn)) && !Guard(s, t, W(Abort)) && !Guard(s, t, W(Finish));
    assert !Guard(s, t, W(Reply)) && !Guard(s, t, W(WDone));
    if t.d.p != PNone { ProcessGone(s, t); }
  }

  lemma NodeNotPassing(s: State, t: Target)
    requires Kept(s, t) && LocalSettled(s, t)
    ensures !t.d.n.NPassN? && t.d.n != NPassK
  {
    HeartbeatRoom(s.cancelled, t);
    assert ReleaseFlow(t);
    assert !Guard(s, t, N(PassN)) && !Guard(s, t, N(PassK));
  }

  /** A cancelled node has closed its end. */
  lemma CancelledNodeGone(s: State, t: Target)
    requires Kept(s, t) && LocalSettled(s, t) && t.d.cancelled
    ensures t.d.n == NClosed
  {
    NodeNotPassing(s, t);
    assert !Guard(s, t, N(NDone)) && !Guard(s, t, N(NClose));
    if t.d.t != TIdle { WorkersGone(s, t); }
  }

  /** So has a node whose manager closed the connection, unless it is deaf. */
  lemma NodeGone(s: State, t: Target)
    requires Kept(s, t) && LocalSettled(s, t) && t.m.h == HClosed
    ensures Down(t) <==> !Deaf(t)
  {
    NodeNotPassing(s, t);
    assert !Guard(s, t, N(Accept)) && !Guard(s, t, N(NRecv)) && !Guard(s, t, N(NRecvEof));
    if t.d.cancelled { CancelledNodeGone(s, t); }
  }

  lemma SettledTarget(s: State, i: nat)
    requires Inv(s) && AllPulses(s) && Settled(s) && s.cancelled && i < |s.ts|
    ensures Down(s.ts[i]) <==> !Parked(s.ts[i]) && !Deaf(s.ts[i])
    ensures s.ts[i].m.h == HClosed <==> !Parked(s.ts[i])
  {
    SettledLocally(s, i);
    CheckInRoom(s, i);
    HandlerGone(s, s.ts[i]);
    if s.ts[i].m.h == HClosed { NodeGone(s, s.ts[i]); }
  }

  // ---- the whole task ---------------------------------------------------------------

  /** In a settled task, a process that has ended has cancelled the manager's context. */
  lemma ExitCancels(s: State, i: nat)
    requires Inv(s) && AllPulses(s) && Settled(s) && i < |s.ts|
    requires s.ts[i].d.p == PExited || s.ts[i].d.p == PReaped || s.ts[i].d.cancelled
    ensures s.cancelled
  {
    var t := s.ts[i];
    SettledLocally(s, i);
    assert !Guard(s, t, P(Reap));
    assert ProcControl(t);
    CancelledNodeGone(s, t);
    if !s.cancelled {
      CheckInRoom(s, i);
      HandlerNotSignalling(s, t);
      assert !Guard(s, t, H(RecvEof)) && !Guard(s, t, H(Recv));
      HandlerOutOfLoop(s, t);
      NoBarrier(s, i);
    }
  }

  /** A settled barrier missing a check-in has run into its watchdog. */
  lemma NoBarrier(s: State, i: nat)
    requires Inv(s) && AllPulses(s) && Settled(s) && i < |s.ts| && s.ts[i].m.signals == 0
    ensures s.cancelled
  {
    assert !Enabled(s, Global(Watchdog)) by {
      assert !Beat(s, Global(Watchdog)) && InternalStep(Global(Watchdog));
    }
    if s.barrier.Releasing? || s.barrier == Opened { AllCheckedIn(s); }
  }

  /** The end of a launch. Once nothing but healthy heartbeats can happen, an ended process or
      a cancellation on any node has cancelled the task; every target is torn down exactly
      when its NkeepMaster is not parked and its node is not deaf; and dispatchCommToNodes
      has returned exactly when no goroutine of the manager is parked. */
  lemma TeardownReachesEveryone(tr: seq<State>, acts: seq<Step>, n: nat)
    requires Run(tr, acts) && OnTime(tr, acts) && n < |tr| && Settled(tr[n])
    requires tr[n].cancelled
             || exists i :: 0 <= i < |tr[n].ts|
                  && (tr[n].ts[i].d.p == PExited || tr[n].ts[i].d.p == PReaped || tr[n].ts[i].d.cancelled)
    ensures tr[n].cancelled
    ensures forall i :: 0 <= i < |tr[n].ts| ==>
              (Down(tr[n].ts[i]) <==> !Parked(tr[n].ts[i]) && !Deaf(tr[n].ts[i]))
    ensures tr[n].dispatch == Returned <==>
              !BarrierParked(tr[n]) && forall i :: 0 <= i < |tr[n].ts| ==> !Parked(tr[n].ts[i])
  {
    RunInv(tr, acts, n);
    RunPulse(tr, acts, n);
    var s := tr[n];
    if !s.cancelled {
      var i :| 0 <= i < |s.ts| && (s.ts[i].d.p == PExited || s.ts[i].d.p == PReaped || s.ts[i].d.cancelled);
      ExitCancels(s, i);
    }
    forall i | 0 <= i < |s.ts|
      ensures Down(s.ts[i]) <==> !Parked(s.ts[i]) && !Deaf(s.ts[i])
      ensures s.ts[i].m.h == HClosed <==> !Parked(s.ts[i])
    {
      SettledTarget(s, i);
    }
    SettledDispatch(s);
    ReturnedMeansClosed(tr, acts, n);
  }

  lemma SettledDispatch(s: State)
    requires Inv(s) && AllPulses(s) && Settled(s) && s.cancelled
    ensures (s.barrier == Opened || s.barrier == Failed) <==> !BarrierParked(s)
    ensures s.dispatch == Waiting ==>
      BarrierParked(s) || exists i :: 0 <= i < |s.ts| && s.ts[i].m.h != HClosed
  {
    forall c | c != ClientCancel && c != PrepareFail ensures !CtlGuard(s, c) {
      assert InternalStep(Global(c)) && !Beat(s, Global(c));
      assert !Enabled(s, Global(c));
    }
    assert !CtlGuard(s, Watchdog) && !CtlGuard(s, Open) && !CtlGuard(s, OpenEnd) && !CtlGuard(s, Return);
  }

  ghost predicate ClosedForGood(s: State) {
    s.dispatch == Returned ==>
      (s.barrier == Opened || s.barrier == Failed) && forall i :: 0 <= i < |s.ts| ==> s.ts[i].m.h == HClosed
  }

  lemma StaysClosed(s: State, t: Target, a: Act)
    requires Guard(s, t, a) && t.m.h == HClosed
    ensures After(s, t, a).m.h == HClosed
  {
    match a
    case H(h) =>
    case K(k) =>
    case N(n) => assert NNext(t, n).m == t.m;
    case W(w) => assert WNext(t, w).m == t.m;
    case P(p) => assert PNext(t, p).m == t.m;
  }

  lemma {:induction false} ReturnedMeansClosed(tr: seq<State>, acts: seq<Step>, n: nat)
    requires Run(tr, acts) && n < |tr|
    ensures ClosedForGood(tr[n])
  {
    if n > 0 {
      ReturnedMeansClosed(tr, acts, n - 1);
      var s, st := tr[n - 1], acts[n - 1];
      assert Enabled(s, st) && tr[n] == Next(s, st);
      if st.Local? && s.dispatch == Returned { StaysClosed(s, s.ts[st.i], st.a); }
    } else {
      assert Init(tr[0]);
    }
  }

  // ---- why a goroutine of the manager is parked -------------------------------------

  /** What a parked NkeepMaster finds in its channel is the release, so the barrier has opened
      for its target; what a parked NcountMaster finds is a heartbeat. */
  lemma ParkingCauses(tr: seq<State>, acts: seq<Step>, n: nat)
    requires Run(tr, acts) && OnTime(tr, acts) && n < |tr|
    ensures forall i :: 0 <= i < |tr[n].ts| && Parked(tr[n].ts[i]) ==>
      tr[n].ts[i].m.send.value.Ncount? && i < Reached(tr[n])
      && (tr[n].barrier.Releasing? || tr[n].barrier == Opened)
    ensures BarrierParked(tr[n]) ==> tr[n].ts[tr[n].barrier.next].m.send == Some(Nkeep)
  {
    RunInv(tr, acts, n);
    RunPulse(tr, acts, n);
    var s := tr[n];
    forall i | 0 <= i < |s.ts| && Parked(s.ts[i])
      ensures s.ts[i].m.send.value.Ncount? && s.ts[i].m.releases > 0
    {
      ParkedOnRelease(s, s.ts[i]);
    }
    if BarrierParked(s) { assert ReleaseFlow(s.ts[s.barrier.next]); }
  }

  lemma ParkedOnRelease(s: State, t: Target)
    requires Kept(s, t) && Parked(t)
    ensures t.m.send.value.Ncount? && t.m.releases > 0
  {
  }

  /** A barrier that failed always reclaims: once nothing more happens, dispatchCommToNodes has
      returned and every target is torn down unless its node is deaf. */
  lemma FailedBarrierReclaims(tr: seq<State>, acts: seq<Step>, n: nat)
    requires Run(tr, acts) && OnTime(tr, acts) && n < |tr| && Settled(tr[n]) && tr[n].barrier == Failed
    ensures tr[n].dispatch == Returned
    ensures forall i :: 0 <= i < |tr[n].ts| ==> (Down(tr[n].ts[i]) <==> !Deaf(tr[n].ts[i]))
  {
    RunInv(tr, acts, n);
    ParkingCauses(tr, acts, n);
    TeardownReachesEveryone(tr, acts, n);
  }

  /** If no write of a node's handler fails, no node is ever deaf. */
  lemma {:induction false} DeafNeedsFailedWrite(tr: seq<State>, acts: seq<Step>, n: nat, i: nat)
    requires Run(tr, acts) && n < |tr| && i < |tr[n].ts|
    requires forall j :: 0 <= j < n ==> acts[j] != Local(i, N(NWriteFail))
    ensures !Deaf(tr[n].ts[i])
  {
    if n == 0 {
      assert Init(tr[0]);
    } else {
      assert Enabled(tr[n - 1], acts[n - 1]) && tr[n] == Next(tr[n - 1], acts[n - 1]);
      SameRole(tr[n - 1], acts[n - 1], i);
      DeafNeedsFailedWrite(tr, acts, n - 1, i);
      StepHearing(tr[n - 1], acts[n - 1], i);
    }
  }

  lemma StepHearing(s: State, st: Step, i: nat)
    requires Enabled(s, st) && i < |s.ts| && !Deaf(s.ts[i]) && st != Local(i, N(NWriteFail))
    ensures i < |Next(s, st).ts| && !Deaf(Next(s, st).ts[i])
  {
    if st.Local? && st.i == i { StaysHearing(s, s.ts[i], st.a); }
  }

  lemma StaysHearing(s: State, t: Target, a: Act)
    requires Guard(s, t, a) && !Deaf(t) && a != N(NWriteFail)
    ensures !Deaf(After(s, t, a))
  {
    match a
    case H(h) => assert HNext(t, h).d == t.d;
    case K(k) => assert KNext(t, k).d == t.d;
    case N(n) =>
    case W(w) => assert WNext(t, w).d.n == t.d.n;
    case P(p) =>
  }
}
