/** What every step of a launch keeps, per target and for the whole task. */
module LaunchInvariants {
  import opened Basics
  import opened LaunchProtocol

  function One(b: bool): nat { if b then 1 else 0 }

  // ---- per-target invariants --------------------------------------------------------

  predicate Looping(h: HPc) { h == HLoop || h == HSignalN || h == HSignalK }

  /** The check-in travels at most once from the worker to waitNCountChan. */
  predicate CheckInFlow(t: Target) {
    && Ncounts(t.d.out) + Ncounts(t.up) + One(t.m.h == HSignalN) + t.m.signals <= t.d.checkIns <= 1
    && (t.d.t == TIdle || t.d.t == TCheckIn || (t.d.t == TStart && !t.waitDeps) ==> t.d.checkIns == 0)
    && (t.d.checkIns == 1 && !t.waitDeps ==> t.d.p != PNone)
    && (t.d.t == TAwait || (t.d.t == TStart && t.waitDeps) ==> t.d.checkIns == 1)
  }

  /** Where the release is, from sendNodeChan to the worker that takes it. */
  function Releases(t: Target): nat {
    One(t.m.send.Some? && t.m.send.value.Ncount?) + Ncounts(t.down) + One(t.d.n.NPassN?)
    + One(t.d.wait.Some?) + t.d.passes
  }

  predicate HasLeft(h: HPc) { h == HJoining || h == HClosed }

  /** The release travels at most once from NcountMaster to the worker, and is not lost on the
      way before one end leaves its loop. */
  predicate ReleaseFlow(t: Target) {
    && Releases(t) <= t.m.releases <= 1
    && (!HasLeft(t.m.h) && t.d.n != NJoining && !t.d.cancelled ==> Releases(t) == t.m.releases)
    && (t.waitDeps && (t.d.p != PNone || t.d.t == TStart || t.d.t == TJoin) ==> t.d.passes == 1)
    && (t.d.t == TIdle || t.d.t == TCheckIn || t.d.t == TAwait ==> t.d.passes == 0)
    && (t.d.t == TStart && !t.waitDeps ==> t.d.passes == 0)
  }

  ghost predicate Carries(q: seq<Msg>, code: string) {
    forall m :: m in q && m.Ncount? ==> m.code == code
  }

  /** Whatever moves between worker and handler is the worker's own check-in. */
  ghost predicate Echo(t: Target) {
    && Carries(t.d.out, t.code) && Carries(t.up, t.code) && Carries(t.down, t.code)
    && (t.m.resp.Some? ==> t.m.resp.value == t.code)
    && (t.m.h == HSignalN || t.m.signals > 0 ==> t.m.resp.Some?)
    && (t.d.n.NPassN? ==> t.d.n.msg == Ncount(t.code))
    && (t.d.wait.Some? ==> t.d.wait.value == Ncount(t.code))
  }

  predicate MgrControl(cancelled: bool, t: Target) {
    && (t.m.h == HConnecting ==> !t.sent)
    && (t.m.h == HGreeting ==> t.sent)
    && (t.m.h == HConnecting || t.m.h == HGreeting ==> t.m.k == KIdle && t.m.signals == 0)
    && (t.m.k != KIdle ==> t.sent && t.d.n != NIdle && t.m.h != HConnecting && t.m.h != HGreeting)
    && (Looping(t.m.h) || t.m.h == HJoining ==> t.m.k != KIdle)
    && (t.m.h == HClosed ==> t.m.k == KLeft || (t.m.k == KIdle && t.m.signals == 0))
    && (t.m.k == KLeft ==> cancelled)
  }

  predicate NodeControl(t: Target) {
    && |t.d.out| <= 2
    && (!t.sent ==> t.d.n == NIdle)
    && (t.d.n == NIdle ==> t.d.t == TIdle && !t.d.cancelled)
    && (t.d.t == TIdle ==> (t.d.n == NIdle || t.d.n == NClosed) && t.d.w == WIdle
                           && t.d.p == PNone && t.d.checkIns == 0)
    && (t.d.n == NLoop || t.d.n.NPassN? || t.d.n == NPassK || t.d.n == NJoining ==> t.d.t != TIdle)
    && (t.d.n == NClosed && t.d.t != TIdle ==> t.d.t == TDone && t.d.w == WLeft && t.d.cancelled)
    && (t.d.t != TIdle ==> t.d.w != WIdle)
    && (t.d.w == WLeft ==> t.d.cancelled)
  }

  predicate ProcControl(t: Target) {
    && (t.d.t == TDone ==> t.d.cancelled && (t.d.p == PNone || t.d.p == PReaped))
    && (t.d.p == PReaped ==> t.d.cancelled)
    && (t.d.p == PNone <==> t.d.x == XIdle)
    && (t.d.x == XKill ==> t.d.cancelled)
    && (t.d.x == XLeft ==> t.d.p == PReaped)
    && (t.d.t == TIdle || t.d.t == TStart ==> t.d.p == PNone)
    && (t.d.t == TJoin ==> t.d.p != PNone)
    && (t.d.t == TCheckIn || t.d.t == TAwait ==> (t.waitDeps <==> t.d.p == PNone))
  }

  ghost predicate Flows(t: Target) { CheckInFlow(t) && ReleaseFlow(t) && Echo(t) }

  predicate Control(cancelled: bool, t: Target) {
    MgrControl(cancelled, t) && NodeControl(t) && ProcControl(t)
  }

  ghost predicate TargetInv(cancelled: bool, t: Target) {
    Flows(t) && Control(cancelled, t)
  }

  lemma FreshInv(cancelled: bool, waitDeps: bool, code: string)
    ensures TargetInv(cancelled, FreshTarget(waitDeps, code)) && Pulse(cancelled, FreshTarget(waitDeps, code))
  {
  }

  // ---- heartbeats, as long as timers are served on time -----------------------------

  /** Heartbeats in existence: in a channel, on the wire, or held by a goroutine. */
  function Heartbeats(t: Target): nat {
    One(t.m.send == Some(Nkeep)) + Nkeeps(t.down) + One(t.d.n == NPassK) + One(t.d.keep)
    + One(t.d.w == WReply) + Nkeeps(t.d.out) + Nkeeps(t.up)
    + One(t.m.h == HSignalK) + One(t.m.keep)
  }

  predicate OneHeartbeat(t: Target) {
    && Heartbeats(t) <= 1
    && (t.m.k == KIdle || t.m.k == KSend || t.m.k == KWait(false) ==> Heartbeats(t) == 0)
  }

  /** A handler that left its loop with the task uncancelled did so on a failed write, so its
      NkeepMaster is not blocked: the lost message was the heartbeat it now times out on, or
      the only release. */
  predicate WriteLoss(cancelled: bool, t: Target) {
    t.m.h == HJoining && !cancelled ==>
      || (t.m.k == KWait(true) && Heartbeats(t) == 0)
      || (t.m.releases > 0 && (t.m.send.Some? ==> t.m.send.value == Nkeep))
  }

  predicate Pulse(cancelled: bool, t: Target) { OneHeartbeat(t) && WriteLoss(cancelled, t) }

  // ---- every step of a goroutine keeps its target's invariant -----------------------

  lemma WriteFlows(s: State, t: Target)
    requires TargetInv(s.cancelled, t) && HGuard(s, t, Write)
    ensures Flows(HNext(t, Write))
  {
  }

  lemma RecvFlows(s: State, t: Target)
    requires TargetInv(s.cancelled, t) && HGuard(s, t, Recv)
    ensures Flows(HNext(t, Recv))
  {
    assert t.up[0] in t.up;
    assert HNext(t, Recv) == t.(m := HNext(t, Recv).m, up := Rest(t.up));
  }

  lemma HOthersFrame(s: State, t: Target, a: HAct)
    requires HGuard(s, t, a) && a != Write && a != Recv
    ensures var m := HNext(t, a).m;
      && HNext(t, a) == t.(m := m, sent := HNext(t, a).sent)
      && m.resp == t.m.resp && m.releases == t.m.releases
      && One(m.h == HSignalN) + m.signals == One(t.m.h == HSignalN) + t.m.signals
      && (m.send == t.m.send || (m.send.None? && HasLeft(m.h)))
      && (HasLeft(t.m.h) ==> HasLeft(m.h))
  {
  }

  lemma HOthersFlow(s: State, t: Target, a: HAct)
    requires Flows(t) && HGuard(s, t, a) && a != Write && a != Recv
    ensures Flows(HNext(t, a))
  {
    HOthersFrame(s, t, a);
  }

  lemma HFlows(s: State, t: Target, a: HAct)
    requires TargetInv(s.cancelled, t) && HGuard(s, t, a)
    ensures Flows(HNext(t, a))
  {
    if a == Write { WriteFlows(s, t); }
    else if a == Recv { RecvFlows(s, t); }
    else { HOthersFlow(s, t, a); }
  }

  lemma HControl(s: State, t: Target, a: HAct)
    requires Control(s.cancelled, t) && HGuard(s, t, a)
    ensures Control(s.cancelled || Cancels(H(a)), HNext(t, a))
  {
  }

  lemma KFlows(s: State, t: Target, a: KAct)
    requires Flows(t) && KGuard(s, t, a)
    ensures Flows(KNext(t, a))
  {
  }

  lemma KControl(s: State, t: Target, a: KAct)
    requires Control(s.cancelled, t) && KGuard(s, t, a)
    ensures Control(s.cancelled || Cancels(K(a)), KNext(t, a))
  {
  }

  lemma NRecvFlows(c: bool, t: Target)
    requires TargetInv(c, t) && NGuard(t, NRecv)
    ensures Flows(NNext(t, NRecv))
  {
    var rest := Rest(t.down);
    assert t.down[0] in t.down;
    if t.down[0].Ncount? {
      assert NNext(t, NRecv) == t.(d := t.d.(n := NPassN(t.down[0])), down := rest);
    } else {
      assert NNext(t, NRecv) == t.(d := t.d.(n := NPassK), down := rest);
    }
  }

  lemma NWriteFlows(c: bool, t: Target, a: NAct)
    requires TargetInv(c, t) && NGuard(t, a) && (a == NWrite || a == NWriteFail)
    ensures Flows(NNext(t, a))
  {
  }

  lemma NFlows(c: bool, t: Target, a: NAct)
    requires TargetInv(c, t) && NGuard(t, a)
    ensures Flows(NNext(t, a))
  {
    if a == NRecv { NRecvFlows(c, t); }
    else if a == NWrite || a == NWriteFail { NWriteFlows(c, t, a); }
  }

  lemma NControl(c: bool, t: Target, a: NAct)
    requires Control(c, t) && NGuard(t, a)
    ensures Control(c, NNext(t, a))
  {
    var t' := NNext(t, a);
    assert t'.m == t.m && t'.d.p == t.d.p && t'.d.x == t.d.x;
  }

  lemma WSendFlows(c: bool, t: Target, a: WAct)
    requires TargetInv(c, t) && WGuard(t, a) && (a == SendIn || a == Reply)
    ensures Flows(WNext(t, a))
  {
  }

  lemma WOthersFlow(c: bool, t: Target, a: WAct)
    requires TargetInv(c, t) && WGuard(t, a) && a != SendIn && a != Reply
    ensures Flows(WNext(t, a))
  {
    var t' := WNext(t, a);
    assert t'.m == t.m && t'.down == t.down && t'.up == t.up && t'.d.out == t.d.out && t'.d.n == t.d.n;
  }

  lemma WFlows(c: bool, t: Target, a: WAct)
    requires TargetInv(c, t) && WGuard(t, a)
    ensures Flows(WNext(t, a))
  {
    if a == SendIn || a == Reply { WSendFlows(c, t, a); } else { WOthersFlow(c, t, a); }
  }

  lemma WControl(c: bool, t: Target, a: WAct)
    requires TargetInv(c, t) && WGuard(t, a)
    ensures Control(c, WNext(t, a))
  {
  }

  lemma PKeeps(c: bool, t: Target, a: PAct)
    requires TargetInv(c, t) && PGuard(t, a)
    ensures TargetInv(c, PNext(t, a))
  {
  }

  lemma ActKeeps(s: State, t: Target, a: Act)
    requires TargetInv(s.cancelled, t) && Guard(s, t, a)
    ensures TargetInv(s.cancelled || Cancels(a), After(s, t, a))
  {
    match a
    case H(h) => HFlows(s, t, h); HControl(s, t, h);
    case K(k) => KFlows(s, t, k); KControl(s, t, k);
    case N(n) => NFlows(s.cancelled, t, n); NControl(s.cancelled, t, n);
    case W(w) => WFlows(s.cancelled, t, w); WControl(s.cancelled, t, w);
    case P(p) => PKeeps(s.cancelled, t, p);
  }

  lemma WritePulse(s: State, t: Target)
    requires TargetInv(s.cancelled, t) && Pulse(s.cancelled, t) && HGuard(s, t, Write)
    ensures Pulse(s.cancelled, HNext(t, Write))
  {
  }

  lemma RecvPulse(s: State, t: Target)
    requires Pulse(s.cancelled, t) && HGuard(s, t, Recv)
    ensures Pulse(s.cancelled, HNext(t, Recv))
  {
    assert HNext(t, Recv).down == t.down && HNext(t, Recv).d == t.d;
  }

  lemma HPulse(s: State, t: Target, a: HAct)
    requires TargetInv(s.cancelled, t) && Pulse(s.cancelled, t) && HGuard(s, t, a)
    ensures Pulse(s.cancelled || Cancels(H(a)), HNext(t, a))
  {
    if a == Write { WritePulse(s, t); }
    else if a == Recv { RecvPulse(s, t); }
  }

  lemma KPulse(s: State, t: Target, a: KAct)
    requires TargetInv(s.cancelled, t) && Pulse(s.cancelled, t) && KGuard(s, t, a)
    requires a == KRetry ==> t.m.k == KWait(false)
    ensures Pulse(s.cancelled || Cancels(K(a)), KNext(t, a))
  {
  }

  lemma NHeartbeats(t: Target, a: NAct)
    requires NGuard(t, a)
    ensures Heartbeats(NNext(t, a)) <= Heartbeats(t) && NNext(t, a).m == t.m
  {
    var t' := NNext(t, a);
    if a == NRecv {
      assert t'.d == t.d.(n := t'.d.n) && t'.up == t.up;
    } else if a == NWrite || a == NWriteFail {
      assert t'.down == t.down;
    } else {
      assert t'.down == t.down && t'.up == t.up && t'.d.out == t.d.out;
    }
  }

  lemma NPulse(c: bool, t: Target, a: NAct)
    requires Pulse(c, t) && NGuard(t, a)
    ensures Pulse(c, NNext(t, a))
  {
    NHeartbeats(t, a);
  }

  lemma WHeartbeats(t: Target, a: WAct)
    requires WGuard(t, a)
    ensures Heartbeats(WNext(t, a)) <= Heartbeats(t) && WNext(t, a).m == t.m
  {
    assert WNext(t, a).up == t.up && WNext(t, a).down == t.down;
  }

  lemma WPulse(c: bool, t: Target, a: WAct)
    requires Pulse(c, t) && WGuard(t, a)
    ensures Pulse(c, WNext(t, a))
  {
    WHeartbeats(t, a);
  }

  lemma PPulse(c: bool, t: Target, a: PAct)
    requires Pulse(c, t) && PGuard(t, a)
    ensures Pulse(c, PNext(t, a))
  {
  }

  lemma ActPulse(s: State, t: Target, a: Act)
    requires TargetInv(s.cancelled, t) && Pulse(s.cancelled, t) && Guard(s, t, a)
    requires a == K(KRetry) ==> t.m.k == KWait(false)
    ensures Pulse(s.cancelled || Cancels(a), After(s, t, a))
  {
    match a
    case H(h) => HPulse(s, t, h);
    case K(k) => KPulse(s, t, k);
    case N(n) => NPulse(s.cancelled, t, n);
    case W(w) => WPulse(s.cancelled, t, w);
    case P(p) => PPulse(s.cancelled, t, p);
  }

  /** What a step of one target can change of the counters the task is judged by. */
  ghost predicate Framed(t: Target, t': Target, signalled: nat) {
    && t'.waitDeps == t.waitDeps && t'.code == t.code && t'.m.releases == t.m.releases
    && t'.m.signals == t.m.signals + signalled
  }

  lemma HFrame(s: State, t: Target, a: HAct)
    requires HGuard(s, t, a)
    ensures Framed(t, HNext(t, a), One(a == SignalN))
  {
  }

  lemma ActFrame(s: State, t: Target, a: Act)
    requires Guard(s, t, a)
    ensures Framed(t, After(s, t, a), One(a == H(SignalN)))
  {
    match a
    case H(h) => HFrame(s, t, h);
    case K(k) =>
    case N(n) => assert NNext(t, n).m == t.m;
    case W(w) => assert WNext(t, w).m == t.m;
    case P(p) => assert PNext(t, p).m == t.m;
  }

  lemma CancelKeeps(t: Target)
    requires TargetInv(false, t)
    ensures TargetInv(true, t)
  {
  }

  lemma ReleaseKeeps(c: bool, t: Target)
    requires TargetInv(c, t) && t.m.releases == 0 && t.m.send.None?
    ensures TargetInv(c, PutRelease(t))
  {
  }

  lemma ReleasePulse(c: bool, t: Target)
    requires Pulse(c, t) && t.m.releases == 0 && t.m.send.None?
    ensures Pulse(c, PutRelease(t))
  {
    assert Heartbeats(PutRelease(t)) == Heartbeats(t);
  }

  // ---- the whole task ---------------------------------------------------------------

  function Signals(ts: seq<Target>): nat {
    if ts == [] then 0 else ts[0].m.signals + Signals(ts[1..])
  }

  lemma SignalsUpdate(ts: seq<Target>, i: nat, t: Target)
    requires i < |ts|
    ensures Signals(ts[i := t]) == Signals(ts) - ts[i].m.signals + t.m.signals
  {
    if i == 0 {
      assert ts[i := t][1..] == ts[1..];
    } else {
      assert ts[i := t][1..] == ts[1..][i - 1 := t];
      SignalsUpdate(ts[1..], i - 1, t);
    }
  }

  lemma SignalsFull(ts: seq<Target>)
    requires forall i :: 0 <= i < |ts| ==> ts[i].m.signals <= 1
    ensures Signals(ts) <= |ts|
    ensures Signals(ts) == |ts| ==> forall i :: 0 <= i < |ts| ==> ts[i].m.signals == 1
    ensures (exists i :: 0 <= i < |ts| && ts[i].m.signals == 0) ==> Signals(ts) < |ts|
  {
    if ts != [] {
      SignalsFull(ts[1..]);
      assert forall i :: 1 <= i < |ts| ==> ts[i] == ts[1..][i - 1];
    }
  }

  /** How many sendNodeChans have been given their release. */
  function Reached(s: State): nat {
    match s.barrier
    case Releasing(next) => next
    case Opened => |s.ts|
    case _ => 0
  }

  ghost predicate AllTargets(s: State) {
    forall i :: 0 <= i < |s.ts| ==> TargetInv(s.cancelled, s.ts[i])
  }

  predicate BarrierInv(s: State) {
    && Signals(s.ts) == s.queued + s.connected
    && (forall i :: 0 <= i < |s.ts| ==> s.ts[i].m.releases == One(i < Reached(s)))
    && Reached(s) <= |s.ts|
    && (s.barrier == Counting ==> s.connected == 0 || s.connected < |s.ts|)
    && (s.barrier.Releasing? || s.barrier == Opened ==> 0 < |s.ts| <= s.connected)
    && (s.barrier == Failed ==> s.cancelled && (s.connected == 0 || s.connected < |s.ts|))
  }

  predicate DispatchInv(s: State) {
    && (s.dispatch == Returned || s.dispatch == Aborted ==> s.cancelled)
    && (s.dispatch == Preparing || s.dispatch == Aborted ==> s.barrier == Counting)
  }

  ghost predicate Inv(s: State) {
    AllTargets(s) && BarrierInv(s) && DispatchInv(s)
  }

  lemma SignalsFresh(ts: seq<Target>)
    requires forall i :: 0 <= i < |ts| ==> ts[i].m.signals == 0
    ensures Signals(ts) == 0
  {
  }

  lemma InitInv(s: State)
    requires Init(s)
    ensures Inv(s)
  {
    forall i | 0 <= i < |s.ts| ensures TargetInv(s.cancelled, s.ts[i]) {
      FreshInv(s.cancelled, s.ts[i].waitDeps, s.ts[i].code);
    }
    SignalsFresh(s.ts);
  }

  lemma LocalTargets(s: State, i: nat, a: Act)
    requires AllTargets(s) && Enabled(s, Local(i, a))
    ensures AllTargets(Next(s, Local(i, a)))
  {
    var s' := Next(s, Local(i, a));
    ActKeeps(s, s.ts[i], a);
    forall j | 0 <= j < |s'.ts| ensures TargetInv(s'.cancelled, s'.ts[j]) {
      if j != i && s'.cancelled && !s.cancelled { CancelKeeps(s.ts[j]); }
    }
  }

  lemma LocalBarrier(s: State, i: nat, a: Act)
    requires BarrierInv(s) && DispatchInv(s) && Enabled(s, Local(i, a))
    ensures BarrierInv(Next(s, Local(i, a))) && DispatchInv(Next(s, Local(i, a)))
  {
    var t' := After(s, s.ts[i], a);
    ActFrame(s, s.ts[i], a);
    SignalsUpdate(s.ts, i, t');
    LocalFrame(s, i, a);
  }

  lemma LocalFrame(s: State, i: nat, a: Act)
    requires Enabled(s, Local(i, a))
    ensures var s' := Next(s, Local(i, a));
      && s' == s.(ts := s.ts[i := After(s, s.ts[i], a)], cancelled := s.cancelled || Cancels(a),
                  queued := s.queued + One(a == H(SignalN)))
  {
  }

  lemma AllCheckedIn(s: State)
    requires AllTargets(s) && Signals(s.ts) == s.queued + s.connected && s.connected >= |s.ts|
    ensures s.queued == 0 && forall i :: 0 <= i < |s.ts| ==> s.ts[i].m.signals == 1
  {
    forall i | 0 <= i < |s.ts| ensures s.ts[i].m.signals <= 1 {
      assert CheckInFlow(s.ts[i]);
    }
    SignalsFull(s.ts);
  }

  /** With at least one target and every check-in counted, a closed handler has been through
      its loop, and NkeepMaster only leaves when the task is cancelled. */
  lemma ReturnCancelled(s: State)
    requires Inv(s) && CtlGuard(s, Return)
    ensures s.cancelled
  {
    if s.barrier == Opened {
      AllCheckedIn(s);
      assert TargetInv(s.cancelled, s.ts[0]);
    }
  }

  lemma CtlTargets(s: State, c: Ctl)
    requires Inv(s) && CtlGuard(s, c)
    ensures AllTargets(CtlNext(s, c))
  {
    var s' := CtlNext(s, c);
    forall j | 0 <= j < |s'.ts| ensures TargetInv(s'.cancelled, s'.ts[j]) {
      if !s.cancelled && s'.cancelled { CancelKeeps(s.ts[j]); }
      if c == Open && j == s.barrier.next { ReleaseKeeps(s.cancelled, s.ts[j]); }
    }
  }

  lemma OpenBarrier(s: State)
    requires BarrierInv(s) && CtlGuard(s, Open)
    ensures BarrierInv(CtlNext(s, Open))
  {
    SignalsUpdate(s.ts, s.barrier.next, PutRelease(s.ts[s.barrier.next]));
  }

  lemma ConsumeBarrier(s: State)
    requires BarrierInv(s) && CtlGuard(s, Consume) && s.ts != []
    ensures BarrierInv(CtlNext(s, Consume))
  {
  }

  lemma CtlBarrier(s: State, c: Ctl)
    requires Inv(s) && CtlGuard(s, c)
    ensures BarrierInv(CtlNext(s, c)) && DispatchInv(CtlNext(s, c))
  {
    if c == Open { OpenBarrier(s); }
    if c == Return { ReturnCancelled(s); }
    if c == Consume {
      assert s.ts != [];
      ConsumeBarrier(s);
    }
  }

  lemma StepInv(s: State, st: Step)
    requires Inv(s) && Enabled(s, st)
    ensures Inv(Next(s, st))
  {
    match st
    case Local(i, a) => LocalTargets(s, i, a); LocalBarrier(s, i, a);
    case Global(c) => CtlTargets(s, c); CtlBarrier(s, c);
  }

  ghost predicate AllPulses(s: State) {
    forall i :: 0 <= i < |s.ts| ==> Pulse(s.cancelled, s.ts[i])
  }

  lemma LocalPulse(s: State, i: nat, a: Act)
    requires AllTargets(s) && AllPulses(s) && Enabled(s, Local(i, a)) && Timely(s, Local(i, a))
    ensures AllPulses(Next(s, Local(i, a)))
  {
    assert TargetInv(s.cancelled, s.ts[i]) && Pulse(s.cancelled, s.ts[i]);
    ActPulse(s, s.ts[i], a);
    LocalFrame(s, i, a);
    forall j | 0 <= j < |s.ts| && j != i ensures Pulse(s.cancelled || Cancels(a), s.ts[j]) {
      assert Pulse(s.cancelled, s.ts[j]);
    }
  }

  lemma CtlPulse(s: State, c: Ctl)
    requires BarrierInv(s) && AllPulses(s) && CtlGuard(s, c)
    ensures AllPulses(CtlNext(s, c))
  {
    if c == Open { ReleasePulse(s.cancelled, s.ts[s.barrier.next]); }
  }

  lemma StepPulse(s: State, st: Step)
    requires Inv(s) && AllPulses(s) && Enabled(s, st) && Timely(s, st)
    ensures AllPulses(Next(s, st))
  {
    match st
    case Local(i, a) => LocalPulse(s, i, a);
    case Global(c) => CtlPulse(s, c);
  }

  /** Every state of every run satisfies the invariant. */
  lemma {:induction false} RunInv(tr: seq<State>, acts: seq<Step>, n: nat)
    requires Run(tr, acts) && n < |tr|
    ensures Inv(tr[n])
  {
    if n == 0 {
      InitInv(tr[0]);
    } else {
      RunInv(tr, acts, n - 1);
      StepInv(tr[n - 1], acts[n - 1]);
    }
  }

  /** With timers served on time, every target has at most one heartbeat. */
  lemma {:induction false} RunPulse(tr: seq<State>, acts: seq<Step>, n: nat)
    requires Run(tr, acts) && OnTime(tr, acts) && n < |tr|
    ensures AllPulses(tr[n])
  {
    if n == 0 {
      forall i | 0 <= i < |tr[0].ts| ensures Pulse(tr[0].cancelled, tr[0].ts[i]) {
        FreshInv(false, tr[0].ts[i].waitDeps, tr[0].ts[i].code);
      }
    } else {
      RunPulse(tr, acts, n - 1);
      RunInv(tr, acts, n - 1);
      assert Timely(tr[n - 1], acts[n - 1]);
      StepPulse(tr[n - 1], acts[n - 1]);
    }
  }
}
