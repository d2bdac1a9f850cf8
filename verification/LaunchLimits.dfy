/**
 Runs in which reclaiming does not reach everyone, although timers are served on time: one
 for each of the three exceptions that the teardown theorem names. And one that comes up.
 */
module LaunchLimits {
  import opened Basics
  import opened LaunchProtocol
  import opened LaunchTeardown
  import opened LaunchCompletion

  /** A task with one receiver, seen through the fields that vary below. */
  function Solo(cancelled: bool, connected: nat, barrier: Barrier, dispatch: Dispatch, t: Target): State {
    State(cancelled, 0, connected, barrier, dispatch, [t])
  }

  function Recv1(m: Mgr, d: Node): Target { Target(false, "c", true, m, [], [], d) }

  /** The receiver's node: process running, check-in sent, waiting for the release. */
  const UP := Node(NLoop, false, [], None, false, TAwait, WListen, XWatch, PRunning, 1, 0)

  /** The single target takes a step that leaves the queue of check-ins alone. */
  lemma Act1(s: State, a: Act) returns (r: State)
    requires ReachableOnTime(s) && |s.ts| == 1 && Enabled(s, Local(0, a)) && a != H(SignalN) && a != K(KRetry)
    ensures ReachableOnTime(r)
    ensures r == s.(ts := [After(s, s.ts[0], a)], cancelled := s.cancelled || Cancels(a))
  {
    StepOnTime(s, Local(0, a));
    r := Next(s, Local(0, a));
    assert r.ts == [After(s, s.ts[0], a)];
  }

  lemma Ctl1(s: State, c: Ctl) returns (r: State)
    requires ReachableOnTime(s) && CtlGuard(s, c)
    ensures ReachableOnTime(r) && r == CtlNext(s, c)
  {
    StepOnTime(s, Global(c));
    r := CtlNext(s, c);
  }

  lemma Connecting() returns (s: State)
    ensures ReachableOnTime(s)
    ensures s == Solo(false, 0, Counting, Waiting, FreshTarget(false, "c"))
  {
    s := State(false, 0, 0, Counting, Preparing, [FreshTarget(false, "c")]);
    StartReachable(s);
    s := Ctl1(s, Spawn);
  }

  lemma Greeted() returns (s: State)
    ensures ReachableOnTime(s)
    ensures s == Solo(false, 0, Counting, Waiting,
                      Recv1(Mgr(HLoop, KSend, None, false, None, 0, 0),
                            Node(NLoop, false, [], None, false, TStart, WListen, XIdle, PNone, 0, 0)))
  {
    s := Connecting();
    s := Act1(s, H(Connect));
    s := Act1(s, N(Accept));
    s := Act1(s, H(Greet));
  }

  /** The receiver's process runs, its check-in is about to be written. */
  lemma Launched() returns (s: State)
    ensures ReachableOnTime(s)
    ensures s == Solo(false, 0, Counting, Waiting,
                      Recv1(Mgr(HLoop, KSend, None, false, None, 0, 0), UP.(out := [Ncount("c")])))
  {
    s := Greeted();
    s := Act1(s, W(StartOk));
    s := Act1(s, W(SendIn));
    assert s.ts[0].d.out == [Ncount("c")];
  }

  lemma Delivered() returns (s: State)
    ensures ReachableOnTime(s)
    ensures s == Solo(false, 0, Counting, Waiting, Recv1(Mgr(HSignalN, KSend, None, false, Some("c"), 0, 0), UP))
  {
    s := Launched();
    s := Act1(s, N(NWrite));
    assert s.ts[0].up == [Ncount("c")] && s.ts[0].d.out == [];
    s := Act1(s, H(Recv));
    assert s.ts[0].up == [];
  }

  /** The check-in has been counted; NcountMaster is about to release; NkeepMaster has not
      yet sent its first heartbeat. */
  lemma CheckedIn() returns (s: State)
    ensures ReachableOnTime(s)
    ensures s == Solo(false, 1, Releasing(0), Waiting, Recv1(Mgr(HLoop, KSend, None, false, Some("c"), 1, 0), UP))
  {
    s := Delivered();
    StepOnTime(s, Local(0, H(SignalN)));
    s := Next(s, Local(0, H(SignalN)));
    s := Ctl1(s, Consume);
    assert s.ts == [Recv1(Mgr(HLoop, KSend, None, false, Some("c"), 1, 0), UP)];
  }

  lemma SettledSolo(s: State)
    requires |s.ts| == 1 && Spawned(s)
    requires forall a :: Internal(a) && Guard(s, s.ts[0], a) ==> a == K(KRetry) && InLoop(s.ts[0])
    requires forall c :: c == ClientCancel || c == PrepareFail || !CtlGuard(s, c)
    ensures Settled(s)
  {
    forall st | InternalStep(st) && Enabled(s, st) ensures Beat(s, st) {
    }
  }

  /** The release fills sendNodeChan before NkeepMaster's first heartbeat, and the handler
      leaves on the cancelled context: NkeepMaster is parked, the handler waits for it with
      the connection open, and the process runs on. */
  lemma ParkedIsReachable() returns (s: State)
    ensures ReachableOnTime(s) && Settled(s) && s.cancelled && s.dispatch == Waiting
    ensures |s.ts| == 1 && Parked(s.ts[0]) && s.ts[0].d.p == PRunning
  {
    s := ParkedRun();
    ParkedSettles(s);
  }

  lemma ParkedSettles(s: State)
    requires s == Solo(true, 1, Opened, Waiting, Recv1(Mgr(HJoining, KSend, Some(Ncount("")), false, Some("c"), 1, 1), UP))
    ensures Settled(s)
  {
    assert s.ts[0].m.h != HClosed;
    assert !CtlGuard(s, Return);
    forall a ensures !(Internal(a) && Guard(s, s.ts[0], a)) {
    }
    SettledSolo(s);
  }

  lemma ParkedRun() returns (s: State)
    ensures ReachableOnTime(s)
    ensures s == Solo(true, 1, Opened, Waiting, Recv1(Mgr(HJoining, KSend, Some(Ncount("")), false, Some("c"), 1, 1), UP))
  {
    s := CheckedIn();
    s := Ctl1(s, Open);
    assert s.ts == [Recv1(Mgr(HLoop, KSend, Some(Ncount("")), false, Some("c"), 1, 1), UP)];
    s := Ctl1(s, OpenEnd);
    s := Ctl1(s, ClientCancel);
    s := Act1(s, H(HDone));
  }

  /** The node's check-in cannot be written: its handler waits for the process without
      having cancelled it. The heartbeat times out, the manager closes and returns, and the
      process runs on behind a closed connection. */
  lemma DeafIsReachable() returns (s: State)
    ensures ReachableOnTime(s) && Settled(s) && s.cancelled && s.dispatch == Returned
    ensures |s.ts| == 1 && Deaf(s.ts[0]) && s.ts[0].m.h == HClosed && s.ts[0].d.p == PRunning
  {
    s := DeafRun();
    s := Act1(s, H(HDone));
    s := Act1(s, H(HClose));
    s := Ctl1(s, CDone);
    s := Ctl1(s, Return);
    DeafSettles(s);
  }

  lemma DeafRun() returns (s: State)
    ensures ReachableOnTime(s)
    ensures s == Solo(true, 0, Counting, Waiting, Recv1(Mgr(HLoop, KLeft, Some(Nkeep), false, None, 0, 0), UP.(n := NJoining)))
  {
    s := Launched();
    s := Act1(s, N(NWriteFail));
    assert s.ts[0].d.out == [];
    s := Act1(s, K(KBeat));
    s := Act1(s, K(KTimeout));
  }

  lemma DeafSettles(s: State)
    requires s == Solo(true, 0, Failed, Returned, Recv1(Mgr(HClosed, KLeft, Some(Nkeep), false, None, 0, 0), UP.(n := NJoining)))
    ensures Settled(s)
  {
    SettledSolo(s);
  }

  /** NkeepMaster's heartbeat sits in sendNodeChan when the handler leaves: NcountMaster is
      blocked on its release for ever and dispatchCommToNodes never returns, although the
      node has been torn down. */
  lemma BlockedBarrierIsReachable() returns (s: State)
    ensures ReachableOnTime(s) && Settled(s) && s.cancelled && s.dispatch == Waiting
    ensures |s.ts| == 1 && BarrierParked(s) && Down(s.ts[0])
  {
    s := BlockedRun();
    s := NodeStops(s);
    s := NodeFinishes(s);
    BlockedSettles(s);
  }

  const LATE := Mgr(HClosed, KLeft, Some(Nkeep), false, Some("c"), 1, 0)

  lemma BlockedRun() returns (s: State)
    ensures ReachableOnTime(s)
    ensures s == Solo(true, 1, Releasing(0), Waiting, Recv1(LATE, UP))
  {
    s := CheckedIn();
    s := Act1(s, K(KBeat));
    s := Ctl1(s, ClientCancel);
    s := Act1(s, H(HDone));
    s := Act1(s, K(KDone));
    s := Act1(s, H(HClose));
  }

  lemma NodeStops(s0: State) returns (s: State)
    requires ReachableOnTime(s0) && s0 == Solo(true, 1, Releasing(0), Waiting, Recv1(LATE, UP))
    ensures ReachableOnTime(s)
    ensures s == Solo(true, 1, Releasing(0), Waiting,
                      Recv1(LATE, Node(NJoining, true, [], None, false, TJoin, WLeft, XKill, PRunning, 1, 0)))
  {
    s := Act1(s0, N(NRecvEof));
    s := Act1(s, W(Abort));
    s := Act1(s, W(WDone));
    s := Act1(s, P(Term));
  }

  lemma NodeFinishes(s0: State) returns (s: State)
    requires ReachableOnTime(s0)
    requires s0 == Solo(true, 1, Releasing(0), Waiting,
                        Recv1(LATE, Node(NJoining, true, [], None, false, TJoin, WLeft, XKill, PRunning, 1, 0)))
    ensures ReachableOnTime(s)
    ensures s == Solo(true, 1, Releasing(0), Waiting,
                      Recv1(LATE, Node(NClosed, true, [], None, false, TDone, WLeft, XLeft, PReaped, 1, 0)))
  {
    s := Act1(s0, P(Obey));
    s := Act1(s, P(Reap));
    s := Act1(s, P(Leave));
    s := Act1(s, W(Finish));
    s := Act1(s, N(NClose));
  }

  lemma BlockedSettles(s: State)
    requires s == Solo(true, 1, Releasing(0), Waiting,
                       Recv1(LATE, Node(NClosed, true, [], None, false, TDone, WLeft, XLeft, PReaped, 1, 0)))
    ensures Settled(s)
  {
    SettledSolo(s);
  }

  /** Barrier, release and a first heartbeat there and back: the task has settled, and is up. */
  lemma UpIsReachable() returns (s: State)
    ensures ReachableOnTime(s) && Settled(s) && !s.cancelled
    ensures |s.ts| == 1 && Connected(s.ts[0]) && Up(s.ts[0])
  {
    s := ReleaseSent();
    s := ReleaseTaken(s);
    s := BeatSent(s);
    s := BeatTaken(s);
    s := BeatReturned(s);
    s := BeatHeard(s);
    UpSettles(s);
  }

  /** The receiver's node once it has taken its release. */
  const RELEASED := UP.(t := TJoin, passes := 1)

  lemma ReleaseSent() returns (s: State)
    ensures ReachableOnTime(s)
    ensures s == Solo(false, 1, Opened, Waiting, Target(false, "c", true, Mgr(HLoop, KSend, None, false, Some("c"), 1, 1), [Ncount("c")], [], UP))
  {
    s := CheckedIn();
    s := Ctl1(s, Open);
    assert s.ts == [Recv1(Mgr(HLoop, KSend, Some(Ncount("")), false, Some("c"), 1, 1), UP)];
    s := Ctl1(s, OpenEnd);
    s := Act1(s, H(Write));
    assert s.ts[0].down == [Ncount("c")];
  }

  lemma ReleaseTaken(s0: State) returns (s: State)
    requires ReachableOnTime(s0)
    requires s0 == Solo(false, 1, Opened, Waiting, Target(false, "c", true, Mgr(HLoop, KSend, None, false, Some("c"), 1, 1), [Ncount("c")], [], UP))
    ensures ReachableOnTime(s)
    ensures s == Solo(false, 1, Opened, Waiting, Target(false, "c", true, Mgr(HLoop, KSend, None, false, Some("c"), 1, 1), [], [], RELEASED))
  {
    s := Act1(s0, N(NRecv));
    assert s.ts[0].down == [];
    s := Act1(s, N(PassN));
    s := Act1(s, W(Release));
  }

  lemma BeatSent(s0: State) returns (s: State)
    requires ReachableOnTime(s0)
    requires s0 == Solo(false, 1, Opened, Waiting, Target(false, "c", true, Mgr(HLoop, KSend, None, false, Some("c"), 1, 1), [], [], RELEASED))
    ensures ReachableOnTime(s)
    ensures s == Solo(false, 1, Opened, Waiting, Target(false, "c", true, Mgr(HLoop, KWait(true), None, false, Some("c"), 1, 1), [Nkeep], [], RELEASED))
  {
    s := Act1(s0, K(KBeat));
    s := Act1(s, H(Write));
    assert s.ts[0].down == [Nkeep];
  }

  lemma BeatTaken(s0: State) returns (s: State)
    requires ReachableOnTime(s0)
    requires s0 == Solo(false, 1, Opened, Waiting, Target(false, "c", true, Mgr(HLoop, KWait(true), None, false, Some("c"), 1, 1), [Nkeep], [], RELEASED))
    ensures ReachableOnTime(s)
    ensures s == Solo(false, 1, Opened, Waiting, Target(false, "c", true, Mgr(HLoop, KWait(true), None, false, Some("c"), 1, 1), [], [], RELEASED.(w := WReply)))
  {
    s := Act1(s0, N(NRecv));
    assert s.ts[0].down == [];
    s := Act1(s, N(PassK));
    s := Act1(s, W(Take));
  }

  lemma BeatReturned(s0: State) returns (s: State)
    requires ReachableOnTime(s0)
    requires s0 == Solo(false, 1, Opened, Waiting, Target(false, "c", true, Mgr(HLoop, KWait(true), None, false, Some("c"), 1, 1), [], [], RELEASED.(w := WReply)))
    ensures ReachableOnTime(s)
    ensures s == Solo(false, 1, Opened, Waiting, Target(false, "c", true, Mgr(HLoop, KWait(true), None, false, Some("c"), 1, 1), [], [Nkeep], RELEASED))
  {
    s := Act1(s0, W(Reply));
    assert s.ts[0].d.out == [Nkeep];
    s := Act1(s, N(NWrite));
    assert s.ts[0].up == [Nkeep] && s.ts[0].d.out == [];
  }

  lemma BeatHeard(s0: State) returns (s: State)
    requires ReachableOnTime(s0)
    requires s0 == Solo(false, 1, Opened, Waiting, Target(false, "c", true, Mgr(HLoop, KWait(true), None, false, Some("c"), 1, 1), [], [Nkeep], RELEASED))
    ensures ReachableOnTime(s)
    ensures s == Solo(false, 1, Opened, Waiting, Target(false, "c", true, Mgr(HLoop, KWait(false), None, false, Some("c"), 1, 1), [], [], RELEASED))
  {
    s := Act1(s0, H(Recv));
    assert s.ts[0].up == [];
    s := Act1(s, H(SignalK));
    s := Act1(s, K(KReply));
  }

  lemma UpSettles(s: State)
    requires s == Solo(false, 1, Opened, Waiting,
                       Recv1(Mgr(HLoop, KWait(false), None, false, Some("c"), 1, 1), RELEASED))
    ensures Settled(s)
  {
    assert s.ts[0].m.h != HClosed;
    assert !CtlGuard(s, Return);
    forall a | Internal(a) && Guard(s, s.ts[0], a) ensures a == K(KRetry) {
    }
    SettledSolo(s);
  }
}
