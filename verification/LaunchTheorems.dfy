/** Safety of a launch: what holds in every state of every run. */
module LaunchTheorems {
  import opened Basics
  import opened LaunchProtocol
  import opened LaunchInvariants

  // ---- barrier ----------------------------------------------------------------------

  ghost predicate EveryoneReady(s: State) {
    forall j :: 0 <= j < |s.ts| ==>
      s.ts[j].d.checkIns == 1 && (!s.ts[j].waitDeps ==> s.ts[j].d.p != PNone)
  }

  /** Once NcountMaster has released anybody, everybody has checked in. */
  lemma ReleasedMeansReady(s: State, i: nat)
    requires Inv(s) && i < |s.ts| && s.ts[i].m.releases > 0
    ensures EveryoneReady(s) && s.queued == 0
  {
    AllCheckedIn(s);
    forall j | 0 <= j < |s.ts|
      ensures s.ts[j].d.checkIns == 1 && (!s.ts[j].waitDeps ==> s.ts[j].d.p != PNone)
    {
      assert CheckInFlow(s.ts[j]);
    }
  }

  ghost predicate StartedAfter(s: State, n: nat, i: nat) {
    |s.ts| == n && i < n && s.ts[i].d.p == PNone && EveryoneReady(s)
  }

  /** A sender or local process that has been started was started after every target of the
      task had checked in and every receiver's process had been started. */
  lemma {:induction false} StartOrder(tr: seq<State>, acts: seq<Step>, n: nat, i: nat)
    requires Run(tr, acts) && n < |tr| && i < |tr[n].ts|
    requires tr[n].ts[i].waitDeps && tr[n].ts[i].d.p != PNone
    ensures EveryoneReady(tr[n])
    ensures exists k :: 0 <= k < n && StartedAfter(tr[k], |tr[n].ts|, i)
  {
    ReadyAt(tr, acts, n, i);
    assert n > 0 by { if n == 0 { assert Init(tr[0]); } }
    assert Enabled(tr[n - 1], acts[n - 1]) && tr[n] == Next(tr[n - 1], acts[n - 1]);
    SameRole(tr[n - 1], acts[n - 1], i);
    if tr[n - 1].ts[i].d.p != PNone {
      StartOrder(tr, acts, n - 1, i);
    } else {
      StartStep(tr[n - 1], acts[n - 1], i);
      ReadyAt(tr, acts, n - 1, i);
      assert StartedAfter(tr[n - 1], |tr[n].ts|, i);
    }
  }

  lemma ReadyAt(tr: seq<State>, acts: seq<Step>, n: nat, i: nat)
    requires Run(tr, acts) && n < |tr| && i < |tr[n].ts| && tr[n].ts[i].waitDeps
    requires tr[n].ts[i].d.p != PNone || tr[n].ts[i].d.t == TStart
    ensures EveryoneReady(tr[n])
  {
    RunInv(tr, acts, n);
    StartedIsReady(tr[n], i);
  }

  lemma StartedIsReady(s: State, i: nat)
    requires Inv(s) && i < |s.ts| && s.ts[i].waitDeps
    requires s.ts[i].d.p != PNone || s.ts[i].d.t == TStart
    ensures EveryoneReady(s)
  {
    assert ReleaseFlow(s.ts[i]);
    ReleasedMeansReady(s, i);
  }

  lemma SameRole(s: State, st: Step, i: nat)
    requires Enabled(s, st) && i < |s.ts|
    ensures |Next(s, st).ts| == |s.ts| && Next(s, st).ts[i].waitDeps == s.ts[i].waitDeps
  {
    if st.Local? && st.i == i { ActFrame(s, s.ts[i], st.a); }
  }

  lemma StartStep(s: State, st: Step, i: nat)
    requires Enabled(s, st) && i < |s.ts|
    requires s.ts[i].d.p == PNone && Next(s, st).ts[i].d.p != PNone
    ensures s.ts[i].d.t == TStart
  {
    assert st.Local? && st.i == i;
    if st.a != W(StartOk) { OthersStartNothing(s, s.ts[i], st.a); }
  }

  lemma OthersStartNothing(s: State, t: Target, a: Act)
    requires Guard(s, t, a) && a != W(StartOk)
    ensures After(s, t, a).d.p == PNone <==> t.d.p == PNone
  {
    match a
    case H(h) => assert HNext(t, h).d == t.d;
    case K(k) => assert KNext(t, k).d == t.d;
    case N(n) => assert NNext(t, n).d.p == t.d.p;
    case W(w) => assert WNext(t, w).d.p == t.d.p;
    case P(p) =>
  }

  /** When NcountMaster gives up, it stays given up: nobody is ever released and no sender or
      local process of the task ever starts. */
  lemma {:induction false} FailureIsFinal(tr: seq<State>, acts: seq<Step>, a: nat, b: nat)
    requires Run(tr, acts) && a <= b < |tr| && tr[a].barrier == Failed
    ensures tr[b].barrier == Failed && tr[b].cancelled
    ensures forall i :: 0 <= i < |tr[b].ts| ==>
      tr[b].ts[i].m.releases == 0 && (tr[b].ts[i].waitDeps ==> tr[b].ts[i].d.p == PNone)
  {
    RunInv(tr, acts, b);
    if a < b { FailureIsFinal(tr, acts, a, b - 1); }
    forall i | 0 <= i < |tr[b].ts|
      ensures tr[b].ts[i].m.releases == 0 && (tr[b].ts[i].waitDeps ==> tr[b].ts[i].d.p == PNone)
    {
      assert TargetInv(tr[b].cancelled, tr[b].ts[i]);
    }
  }

  // ---- echo -------------------------------------------------------------------------

  /** Every ncount travelling to worker i is the one worker i sent; a release never finds the
      stored check-in empty; the worker never sees a mismatch. */
  lemma EchoAgreement(tr: seq<State>, acts: seq<Step>, n: nat, i: nat)
    requires Run(tr, acts) && n < |tr| && i < |tr[n].ts|
    ensures var t := tr[n].ts[i];
      && (forall m :: m in t.down && m.Ncount? ==> m.code == t.code)
      && (forall m :: m in t.up && m.Ncount? ==> m.code == t.code)
      && (t.m.send == Some(Ncount("")) ==> t.m.resp == Some(t.code))
      && (t.d.wait.Some? ==> t.d.wait.value == Ncount(t.code))
  {
    RunInv(tr, acts, n);
    var s, t := tr[n], tr[n].ts[i];
    assert TargetInv(s.cancelled, t);
    if t.m.send == Some(Ncount("")) { AllCheckedIn(s); }
  }

  // ---- blocking ---------------------------------------------------------------------

  /** The channels of the barrier always have room for what is about to be sent: the queue of
      check-ins, even after NcountMaster has gone, and the worker's waitNCountChan. */
  lemma CheckInsHaveRoom(tr: seq<State>, acts: seq<Step>, n: nat, i: nat)
    requires Run(tr, acts) && n < |tr| && i < |tr[n].ts|
    ensures var s, t := tr[n], tr[n].ts[i];
      && s.queued + s.connected <= |s.ts|
      && (t.m.h == HSignalN ==> s.queued + s.connected < |s.ts|)
      && (t.d.n.NPassN? ==> t.d.wait.None?)
  {
    RunInv(tr, acts, n);
    CheckInRoom(tr[n], i);
  }

  lemma CheckInRoom(s: State, i: nat)
    requires Inv(s) && i < |s.ts|
    ensures var t := s.ts[i];
      && s.queued + s.connected <= |s.ts|
      && (t.m.h == HSignalN ==> s.queued + s.connected < |s.ts|)
      && (t.d.n.NPassN? ==> t.d.wait.None?)
  {
    forall j | 0 <= j < |s.ts| ensures s.ts[j].m.signals <= 1 {
      assert CheckInFlow(s.ts[j]);
    }
    SignalsFull(s.ts);
    assert CheckInFlow(s.ts[i]) && ReleaseFlow(s.ts[i]);
  }

  /** With timers served on time, no channel but sendNodeChan is ever full when a goroutine is
      about to send on it. */
  lemma SendsHaveRoom(tr: seq<State>, acts: seq<Step>, n: nat, i: nat)
    requires Run(tr, acts) && OnTime(tr, acts) && n < |tr| && i < |tr[n].ts|
    ensures var s, t := tr[n], tr[n].ts[i];
      && s.queued + s.connected <= |s.ts|
      && (t.m.h == HSignalN ==> s.queued + s.connected < |s.ts|)
      && (t.m.h == HSignalK ==> !t.m.keep)
      && (t.d.n.NPassN? ==> t.d.wait.None?)
      && (t.d.n == NPassK ==> !t.d.keep)
      && (t.d.t == TCheckIn || t.d.w == WReply ==> |t.d.out| < 2)
  {
    RunInv(tr, acts, n);
    RunPulse(tr, acts, n);
    CheckInRoom(tr[n], i);
    HeartbeatRoom(tr[n].cancelled, tr[n].ts[i]);
  }

  lemma HeartbeatRoom(c: bool, t: Target)
    requires TargetInv(c, t) && Pulse(c, t)
    ensures t.m.h == HSignalK ==> !t.m.keep
    ensures t.d.n == NPassK ==> !t.d.keep
    ensures t.d.t == TCheckIn || t.d.w == WReply ==> |t.d.out| < 2
  {
  }

  // ---- lifetimes --------------------------------------------------------------------

  /** dispatchCommToNodes returns, and so gives its registry entry up, only once the task is
      cancelled: after a failed preparation, with no target, after failed connections, and
      after a barrier that opened. */
  lemma ReturnsOnlyWhenCancelled(tr: seq<State>, acts: seq<Step>, n: nat)
    requires Run(tr, acts) && n < |tr|
    requires tr[n].dispatch == Returned || tr[n].dispatch == Aborted
    ensures tr[n].cancelled
  {
    RunInv(tr, acts, n);
  }

  /** Before dispatchCommToNodes has started its handlers, and when it never does, nothing has
      happened at any target. */
  lemma {:induction false} UnspawnedIsFresh(tr: seq<State>, acts: seq<Step>, n: nat)
    requires Run(tr, acts) && n < |tr| && !Spawned(tr[n])
    ensures forall i :: 0 <= i < |tr[n].ts| ==> tr[n].ts[i] == FreshTarget(tr[n].ts[i].waitDeps, tr[n].ts[i].code)
  {
    if n == 0 {
      assert Init(tr[0]);
    } else {
      assert Enabled(tr[n - 1], acts[n - 1]) && tr[n] == Next(tr[n - 1], acts[n - 1]);
      assert acts[n - 1].Global?;
      UnspawnedIsFresh(tr, acts, n - 1);
    }
  }

  /** A process that was started and not yet reaped has its TimingWrapper running and its
      node's connection open; once that connection is closed the process is gone or never
      ran, and if the command was accepted the node's context is cancelled. */
  lemma NoOrphans(tr: seq<State>, acts: seq<Step>, n: nat, i: nat)
    requires Run(tr, acts) && n < |tr| && i < |tr[n].ts|
    ensures var d := tr[n].ts[i].d;
      && (d.p == PRunning || d.p == PExited ==> d.t != TIdle && d.t != TDone && d.n != NIdle && d.n != NClosed)
      && (d.n == NClosed ==> (d.p == PNone || d.p == PReaped) && (d.t != TIdle ==> d.cancelled))
  {
    RunInv(tr, acts, n);
    assert TargetInv(tr[n].cancelled, tr[n].ts[i]);
  }

  // ---- who cancels ------------------------------------------------------------------

  /** The manager's context is cancelled by a failed preparation, a client, the barrier's
      watchdog, a connection that ended or broke while the handler was in its loop, and a
      heartbeat that timed out; by nothing else, so not by a failed connect, handshake or write. */
  lemma ManagerCancels(s: State, st: Step)
    requires Enabled(s, st) && !s.cancelled
    ensures Next(s, st).cancelled <==>
      || st == Global(PrepareFail) || st == Global(ClientCancel) || st == Global(Watchdog)
      || (st.Local? && (st.a == H(RecvEof) || st.a == H(RecvFail) || st.a == K(KTimeout)))
  {
  }

  /** A node's context is cancelled by a start that fails, its process being reaped, the end of
      its connection or of its handler; in reachable states by nothing else. */
  lemma NodeCancels(tr: seq<State>, acts: seq<Step>, n: nat, i: nat)
    requires Run(tr, acts) && n < |acts| && i < |tr[n].ts| && !tr[n].ts[i].d.cancelled
    ensures i < |tr[n + 1].ts|
    ensures tr[n + 1].ts[i].d.cancelled <==>
      || acts[n] == Local(i, W(StartFail)) || acts[n] == Local(i, P(Reap))
      || acts[n] == Local(i, N(NRecvEof)) || acts[n] == Local(i, N(NRecvFail)) || acts[n] == Local(i, N(NClose))
  {
    RunInv(tr, acts, n);
    var s, st := tr[n], acts[n];
    assert Enabled(s, st) && tr[n + 1] == Next(s, st);
    SameRole(s, st, i);
    if st.Local? && st.i == i {
      assert Echo(s.ts[i]);
      ActCancels(s, s.ts[i], st.a);
    }
  }

  lemma WorkerCancels(t: Target, a: WAct)
    requires WGuard(t, a) && !t.d.cancelled && Echo(t)
    ensures WNext(t, a).d.cancelled <==> a == StartFail
  {
  }

  lemma HandlerCancels(t: Target, a: NAct)
    requires NGuard(t, a) && !t.d.cancelled
    ensures NNext(t, a).d.cancelled <==> a == NRecvEof || a == NRecvFail || a == NClose
  {
  }

  lemma ActCancels(s: State, t: Target, a: Act)
    requires Guard(s, t, a) && !t.d.cancelled && Echo(t)
    ensures After(s, t, a).d.cancelled <==>
      a == W(StartFail) || a == P(Reap) || a == N(NRecvEof) || a == N(NRecvFail) || a == N(NClose)
  {
    match a
    case H(h) => assert HNext(t, h).d == t.d;
    case K(k) => assert KNext(t, k).d == t.d;
    case N(n) => HandlerCancels(t, n);
    case W(w) => WorkerCancels(t, w);
    case P(p) =>
  }
}
