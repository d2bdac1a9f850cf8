/** The other end of a launch: a task that settles without having been cancelled is up. */
module LaunchCompletion {
  import opened Basics
  import opened LaunchProtocol
  import opened LaunchInvariants
  import opened LaunchTheorems
  import opened LaunchTeardown

  /** The handler is in its loop with nothing to do but wait for the next heartbeat. */
  predicate Connected(t: Target) {
    t.m.h == HLoop && t.m.k == KWait(false) && t.m.send.None? && t.up == [] && t.m.releases == 1
  }

  /** The node is in its loop and its process, released, runs. */
  predicate Up(t: Target) {
    t.d.n == NLoop && !t.d.cancelled && t.d.t == TJoin && t.d.p == PRunning
  }

  lemma SettledInLoop(s: State, i: nat)
    requires Inv(s) && AllPulses(s) && Settled(s) && !s.cancelled && i < |s.ts|
    ensures s.ts[i].m.h == HLoop
  {
    var t := s.ts[i];
    SettledLocally(s, i);
    CheckInRoom(s, i);
    HandlerNotSignalling(s, t);
    if !InLoop(t) {
      HandlerOutOfLoop(s, t);
      NoBarrier(s, i);
    }
  }

  lemma SettledHandler(s: State, i: nat)
    requires Inv(s) && AllPulses(s) && Settled(s) && !s.cancelled && i < |s.ts|
    ensures s.ts[i].m.h == HLoop && s.ts[i].m.k == KWait(false) && s.ts[i].m.send.None? && s.ts[i].up == []
    ensures s.ts[i].d.n != NClosed
  {
    var t := s.ts[i];
    SettledInLoop(s, i);
    SettledLocally(s, i);
    assert MgrControl(s.cancelled, t);
    assert !Guard(s, t, H(Write)) && !Guard(s, t, H(Recv)) && !Guard(s, t, H(RecvEof));
    assert !Guard(s, t, K(KBeat)) && !Guard(s, t, K(KTimeout));
  }

  lemma SettledNode(s: State, i: nat)
    requires Inv(s) && AllPulses(s) && Settled(s) && !s.cancelled && i < |s.ts| && s.ts[i].m.releases == 1
    ensures Up(s.ts[i]) <==> !Deaf(s.ts[i])
  {
    var t := s.ts[i];
    SettledHandler(s, i);
    SettledLocally(s, i);
    NodeNotPassing(s, t);
    if t.d.cancelled { CancelledNodeGone(s, t); }
    if !Deaf(t) { ReleasedProcess(s, t); }
  }

  /** A release that left the manager has reached the worker, and the worker has acted on it. */
  lemma ReleasedProcess(s: State, t: Target)
    requires Kept(s, t) && LocalSettled(s, t) && t.m.releases == 1 && t.m.send.None?
    requires t.m.h == HLoop && t.d.n == NLoop && !t.d.cancelled
    ensures t.d.t == TJoin && t.d.p == PRunning
  {
    HeartbeatRoom(s.cancelled, t);
    assert !Guard(s, t, N(NRecv));
    assert Releases(t) == 1 && Ncounts(t.down) == 0;
    assert !Guard(s, t, W(StartOk)) && !Guard(s, t, W(SendIn)) && !Guard(s, t, W(Release));
    assert !Guard(s, t, P(Reap));
  }

  lemma SettledBarrier(s: State)
    requires Inv(s) && AllPulses(s) && Settled(s) && !s.cancelled
    ensures s.barrier == Opened && s.dispatch == Waiting && s.ts != []
  {
    forall c | c != ClientCancel && c != PrepareFail ensures !CtlGuard(s, c) {
      assert InternalStep(Global(c)) && !Beat(s, Global(c));
      assert !Enabled(s, Global(c));
    }
    assert !CtlGuard(s, Watchdog) && !CtlGuard(s, Open) && !CtlGuard(s, OpenEnd);
    if s.barrier.Releasing? && s.barrier.next < |s.ts| { SettledHandler(s, s.barrier.next); }
  }

  /** Once nothing but healthy heartbeats can happen and nobody has cancelled, the launch has
      come up: the barrier is open, every handler is connected, and every process runs, except
      behind a deaf node, whose missing heartbeat has not been noticed yet. */
  lemma LaunchCompletes(tr: seq<State>, acts: seq<Step>, n: nat)
    requires Run(tr, acts) && OnTime(tr, acts) && n < |tr| && Settled(tr[n]) && !tr[n].cancelled
    ensures tr[n].barrier == Opened && tr[n].dispatch == Waiting && tr[n].ts != []
    ensures forall i :: 0 <= i < |tr[n].ts| ==> Connected(tr[n].ts[i])
    ensures forall i :: 0 <= i < |tr[n].ts| ==> (Up(tr[n].ts[i]) <==> !Deaf(tr[n].ts[i]))
  {
    RunInv(tr, acts, n);
    RunPulse(tr, acts, n);
    var s := tr[n];
    SettledBarrier(s);
    forall i | 0 <= i < |s.ts| ensures Connected(s.ts[i]) && (Up(s.ts[i]) <==> !Deaf(s.ts[i])) {
      SettledHandler(s, i);
      SettledNode(s, i);
    }
  }
}
