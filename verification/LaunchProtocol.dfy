/**
 One task of the lifecycle manager as a state machine: `dispatchCommToNodes` with its
 NcountMaster, and, for every target, a manager side (handleNodeConnection, NkeepMaster)
 and a node side (handleConnection, TimingWrapper with ncountWorker, NkeepWorker,
 processExitHandler, waitProcess).

 A step is one channel operation, one select branch, one frame written or received, one
 timer or one process event; every interleaving of steps is a run. A channel of capacity 1
 is an Option (or a bool when only its presence matters), a larger one a sequence. Each
 ConnReadLoop is folded into the direction of the connection it reads: its frames arrive
 in order, then its nil.
 */
module LaunchProtocol {
  import opened Basics

  /** A ConsistencyProtocol message. */
  datatype Msg = Ncount(code: string) | Nkeep

  function Ncounts(q: seq<Msg>): nat {
    if q == [] then 0 else (if q[0].Ncount? then 1 else 0) + Ncounts(q[1..])
  }

  lemma NcountsAppend(q: seq<Msg>, m: Msg)
    ensures Ncounts(q + [m]) == Ncounts(q) + (if m.Ncount? then 1 else 0)
  {
    if q == [] {
      assert q + [m] == [m];
    } else {
      assert (q + [m])[1..] == q[1..] + [m];
      NcountsAppend(q[1..], m);
    }
  }

  lemma NcountsBound(q: seq<Msg>)
    ensures Ncounts(q) <= |q|
  {
  }

  function Nkeeps(q: seq<Msg>): nat {
    NcountsBound(q);
    |q| - Ncounts(q)
  }

  /** Sending and receiving on a FIFO; the contracts say what happens to the number of messages of each kind. */
  function Put(q: seq<Msg>, m: Msg): (r: seq<Msg>)
    ensures |r| == |q| + 1
    ensures Ncounts(r) == Ncounts(q) + (if m.Ncount? then 1 else 0)
    ensures forall x :: x in r ==> x == m || x in q
  {
    NcountsAppend(q, m);
    q + [m]
  }

  function Rest(q: seq<Msg>): (r: seq<Msg>)
    requires q != []
    ensures |r| == |q| - 1
    ensures Ncounts(q) == Ncounts(r) + (if q[0].Ncount? then 1 else 0)
    ensures forall x :: x in r ==> x in q
  {
    q[1..]
  }

  // ---- program counters, one datatype per goroutine ---------------------------------

  /** handleNodeConnection */
  datatype HPc = HConnecting | HGreeting | HLoop | HSignalN | HSignalK | HJoining | HClosed
  /** NkeepMaster; `armed` tells whether the reply timer `recvt` is running */
  datatype KPc = KIdle | KSend | KWait(armed: bool) | KLeft
  /** handleConnection */
  datatype NPc = NIdle | NLoop | NPassN(msg: Msg) | NPassK | NJoining | NClosed
  /** TimingWrapper with ncountWorker */
  datatype TPc = TIdle | TStart | TCheckIn | TAwait | TJoin | TDone
  /** NkeepWorker */
  datatype WPc = WIdle | WListen | WReply | WLeft
  /** processExitHandler */
  datatype XPc = XIdle | XWatch | XKill | XLeft
  /** the launched process; `PReaped` once waitProcess has returned */
  datatype Proc = PNone | PRunning | PExited | PReaped
  /** NcountMaster; `Releasing(next)` is about to send on sendNodeChans[next] */
  datatype Barrier = Counting | Releasing(next: nat) | Opened | Failed
  /** dispatchCommToNodes */
  datatype Dispatch = Preparing | Aborted | Waiting | Returned

  // ---- state ------------------------------------------------------------------------

  /** Manager side of a target. `signals` and `releases` count the sends on waitNCountChan
      and the release requests NcountMaster put on sendNodeChan. */
  datatype Mgr = Mgr(h: HPc, k: KPc,
                     send: Option<Msg>,       // sendNodeChan, capacity 1
                     keep: bool,              // waitNKeepChan, capacity 1
                     resp: Option<string>,    // respNCountMsg
                     signals: nat, releases: nat)

  /** Node side of a target. `checkIns` counts the ncount messages ncountWorker sent,
      `passes` the ncount replies it consumed. */
  datatype Node = Node(n: NPc, cancelled: bool,
                       out: seq<Msg>,         // sendLcmChan, capacity 2
                       wait: Option<Msg>,     // waitNCountChan, capacity 1
                       keep: bool,            // waitNKeepChan, capacity 1
                       t: TPc, w: WPc, x: XPc, p: Proc,
                       checkIns: nat, passes: nat)

  /** `code` is the magic code the worker drew; `sent` says the command left the manager;
      `down` and `up` are the frames in flight to the node and to the manager. */
  datatype Target = Target(waitDeps: bool, code: string, sent: bool,
                           m: Mgr, down: seq<Msg>, up: seq<Msg>, d: Node)

  datatype State = State(cancelled: bool,       // commTaskCtx of the manager
                         queued: nat,           // waitNCountChan, capacity |ts|
                         connected: nat, barrier: Barrier, dispatch: Dispatch,
                         ts: seq<Target>)

  function FreshTarget(waitDeps: bool, code: string): Target {
    Target(waitDeps, code, false, Mgr(HConnecting, KIdle, None, false, None, 0, 0), [], [],
           Node(NIdle, false, [], None, false, TIdle, WIdle, XIdle, PNone, 0, 0))
  }

  ghost predicate Init(s: State) {
    && !s.cancelled && s.queued == 0 && s.connected == 0
    && s.barrier == Counting && s.dispatch == Preparing
    && forall i :: 0 <= i < |s.ts| ==> s.ts[i] == FreshTarget(s.ts[i].waitDeps, s.ts[i].code)
  }

  // ---- handleNodeConnection ---------------------------------------------------------

  datatype HAct = Connect | ConnectFail | Greet | GreetRefused | GreetFail
                | Write | WriteFail | Recv | RecvEof | RecvFail | SignalN | SignalK | HDone | HClose

  predicate HGuard(s: State, t: Target, a: HAct) {
    match a
    case Connect | ConnectFail => t.m.h == HConnecting
    case Greet => t.m.h == HGreeting && t.d.n != NIdle   // acceptLoop sends it for refused commands too
    case GreetRefused => t.m.h == HGreeting && t.d.n == NClosed && t.d.t == TIdle
    case GreetFail => t.m.h == HGreeting
    case Write | WriteFail => t.m.h == HLoop && t.m.send.Some?
    case Recv => t.m.h == HLoop && t.up != []
    case RecvEof => t.m.h == HLoop && t.up == [] && t.d.n == NClosed
    case RecvFail => t.m.h == HLoop
    case SignalN => t.m.h == HSignalN && s.queued < |s.ts|
    case SignalK => t.m.h == HSignalK && !t.m.keep
    case HDone => t.m.h == HLoop && s.cancelled
    case HClose => t.m.h == HJoining && t.m.k == KLeft
  }

  function HNext(t: Target, a: HAct): Target
    requires a.Write? ==> t.m.send.Some?
    requires a.Recv? ==> t.up != []
  {
    match a
    case Connect => t.(m := t.m.(h := HGreeting), sent := true)
    case ConnectFail | GreetRefused | GreetFail => t.(m := t.m.(h := HClosed))
    case Greet => t.(m := t.m.(h := HLoop, k := KSend))
    case Write =>
      if t.m.send.value.Nkeep? then t.(m := t.m.(send := None), down := Put(t.down, Nkeep))
      // a release is answered with the stored check-in; writing an empty message fails
      else if t.m.resp.None? then t.(m := t.m.(send := None, h := HJoining))
      else t.(m := t.m.(send := None), down := Put(t.down, Ncount(t.m.resp.value)))
    case WriteFail => t.(m := t.m.(send := None, h := HJoining))
    case Recv =>
      (match t.up[0]
       case Ncount(c) => t.(m := t.m.(resp := Some(c), h := HSignalN), up := Rest(t.up))
       case Nkeep => t.(m := t.m.(h := HSignalK), up := Rest(t.up)))
    case RecvEof | RecvFail | HDone => t.(m := t.m.(h := HJoining))
    case SignalN => t.(m := t.m.(h := HLoop, signals := t.m.signals + 1))
    case SignalK => t.(m := t.m.(h := HLoop, keep := true))
    case HClose => t.(m := t.m.(h := HClosed))
  }

  // ---- NkeepMaster ------------------------------------------------------------------

  /** `KRetry` is the ticker `sendt`, `KTimeout` the ticker `recvt`. `KLateReply` is a reply
      taken when `recvt` has already fired: stopping it leaves the tick to be received. */
  datatype KAct = KBeat | KRetry | KTimeout | KReply | KLateReply | KDone

  predicate KGuard(s: State, t: Target, a: KAct) {
    match a
    case KBeat => t.m.k == KSend && t.m.send.None?
    case KRetry => t.m.k.KWait?
    case KTimeout => t.m.k == KWait(true)
    case KReply => t.m.k.KWait? && t.m.keep
    case KLateReply => t.m.k == KWait(true) && t.m.keep
    case KDone => t.m.k.KWait? && s.cancelled
  }

  function KNext(t: Target, a: KAct): Target {
    match a
    case KBeat => t.(m := t.m.(send := Some(Nkeep), k := KWait(true)))
    case KRetry => t.(m := t.m.(k := KSend))
    case KTimeout | KDone => t.(m := t.m.(k := KLeft))
    case KReply => t.(m := t.m.(keep := false, k := KWait(false)))
    case KLateReply => t.(m := t.m.(keep := false))
  }

  // ---- handleConnection -------------------------------------------------------------

  datatype NAct = Accept | Refuse | NWrite | NWriteFail | NRecv | NRecvEof | NRecvFail
                | PassN | PassK | NDone | NClose

  predicate NGuard(t: Target, a: NAct) {
    match a
    case Accept | Refuse => t.d.n == NIdle && t.sent
    case NWrite | NWriteFail => t.d.n == NLoop && t.d.out != []
    case NRecv => t.d.n == NLoop && t.down != []
    case NRecvEof => t.d.n == NLoop && t.down == [] && t.m.h == HClosed
    case NRecvFail => t.d.n == NLoop
    case PassN => t.d.n.NPassN? && t.d.wait.None?
    case PassK => t.d.n == NPassK && !t.d.keep
    case NDone => t.d.n == NLoop && t.d.cancelled
    case NClose => t.d.n == NJoining && t.d.t == TDone && t.d.w == WLeft
  }

  function NNext(t: Target, a: NAct): Target
    requires a.NWrite? || a.NWriteFail? ==> t.d.out != []
    requires a.NRecv? ==> t.down != []
    requires a.PassN? ==> t.d.n.NPassN?
  {
    match a
    case Accept => t.(d := t.d.(n := NLoop, w := WListen, t := if t.waitDeps then TCheckIn else TStart))
    case Refuse => t.(d := t.d.(n := NClosed))
    case NWrite => t.(d := t.d.(out := Rest(t.d.out)), up := Put(t.up, t.d.out[0]))
    case NWriteFail => t.(d := t.d.(out := Rest(t.d.out), n := NJoining))
    case NRecv =>
      if t.down[0].Ncount? then t.(d := t.d.(n := NPassN(t.down[0])), down := Rest(t.down))
      else t.(d := t.d.(n := NPassK), down := Rest(t.down))
    case NRecvEof | NRecvFail => t.(d := t.d.(cancelled := true, n := NJoining))
    case PassN => t.(d := t.d.(wait := Some(t.d.n.msg), n := NLoop))
    case PassK => t.(d := t.d.(keep := true, n := NLoop))
    case NDone => t.(d := t.d.(n := NJoining))
    case NClose => t.(d := t.d.(cancelled := true, n := NClosed))
  }

  // ---- TimingWrapper, ncountWorker and NkeepWorker ----------------------------------

  datatype WAct = StartOk | StartFail | SendIn | Release | Abort | Finish
                | Take | Reply | WDone

  predicate WGuard(t: Target, a: WAct) {
    match a
    case StartOk | StartFail => t.d.t == TStart
    case SendIn => t.d.t == TCheckIn && |t.d.out| < 2
    case Release => t.d.t == TAwait && t.d.wait.Some?
    case Abort => t.d.t == TAwait && t.d.cancelled
    case Finish => t.d.t == TJoin && t.d.x == XLeft && t.d.p == PReaped
    case Take => t.d.w == WListen && t.d.keep
    case Reply => t.d.w == WReply && |t.d.out| < 2
    case WDone => t.d.w == WListen && t.d.cancelled
  }

  function WNext(t: Target, a: WAct): Target
    requires a.Release? ==> t.d.wait.Some?
  {
    match a
    case StartOk => t.(d := t.d.(p := PRunning, x := XWatch, t := if t.waitDeps then TJoin else TCheckIn))
    case StartFail => t.(d := t.d.(cancelled := true, t := TDone))
    case SendIn => t.(d := t.d.(out := Put(t.d.out, Ncount(t.code)), checkIns := t.d.checkIns + 1, t := TAwait))
    case Release =>
      var d := t.d.(wait := None, passes := t.d.passes + 1);
      if t.d.wait.value == Ncount(t.code) then t.(d := d.(t := if t.waitDeps then TStart else TJoin))
      else t.(d := d.(cancelled := true, t := if t.waitDeps then TDone else TJoin))
    case Abort => t.(d := t.d.(t := if t.waitDeps then TDone else TJoin))
    case Finish => t.(d := t.d.(t := TDone))
    case Take => t.(d := t.d.(keep := false, w := WReply))
    case Reply => t.(d := t.d.(out := Put(t.d.out, Nkeep), w := WListen))
    case WDone => t.(d := t.d.(w := WLeft))
  }

  // ---- the process, waitProcess and processExitHandler ------------------------------

  /** `Exit` is a process ending by itself, `Obey` one ending on SIGTERM. */
  datatype PAct = Exit | Obey | Reap | Term | Leave

  predicate PGuard(t: Target, a: PAct) {
    match a
    case Exit => t.d.p == PRunning
    case Obey => t.d.p == PRunning && t.d.x == XKill
    case Reap => t.d.p == PExited
    case Term => t.d.x == XWatch && t.d.cancelled
    case Leave => t.d.x == XKill && t.d.p == PReaped
  }

  function PNext(t: Target, a: PAct): Target {
    match a
    case Exit | Obey => t.(d := t.d.(p := PExited))
    case Reap => t.(d := t.d.(p := PReaped, cancelled := true))
    case Term => t.(d := t.d.(x := XKill))
    case Leave => t.(d := t.d.(x := XLeft))
  }

  // ---- all steps of a target --------------------------------------------------------

  datatype Act = H(h: HAct) | K(k: KAct) | N(n: NAct) | W(w: WAct) | P(p: PAct)

  predicate Guard(s: State, t: Target, a: Act) {
    match a
    case H(h) => HGuard(s, t, h)
    case K(k) => KGuard(s, t, k)
    case N(n) => NGuard(t, n)
    case W(w) => WGuard(t, w)
    case P(p) => PGuard(t, p)
  }

  function After(s: State, t: Target, a: Act): Target
    requires Guard(s, t, a)
  {
    match a
    case H(h) => HNext(t, h)
    case K(k) => KNext(t, k)
    case N(n) => NNext(t, n)
    case W(w) => WNext(t, w)
    case P(p) => PNext(t, p)
  }

  /** The steps that call Cancel on the manager's context. */
  predicate Cancels(a: Act) {
    a == H(RecvEof) || a == H(RecvFail) || a == K(KTimeout)
  }

  /** Steps the environment may or may not take: failures, refusals and a process ending by
      itself. Every other step is taken eventually when it stays enabled. */
  predicate Internal(a: Act) {
    a !in {H(ConnectFail), H(GreetFail), H(WriteFail), H(RecvFail), N(Refuse), N(NWriteFail), N(NRecvFail),
           W(StartFail), P(Exit)}
  }

  // ---- steps of dispatchCommToNodes and NcountMaster --------------------------------

  datatype Ctl = Spawn | PrepareFail | ClientCancel
               | Consume | Watchdog | CDone | Open | OpenEnd | Return

  datatype Step = Local(i: nat, a: Act) | Global(c: Ctl)

  predicate InternalStep(st: Step) {
    match st
    case Local(_, a) => Internal(a)
    case Global(c) => c != ClientCancel && c != PrepareFail
  }

  predicate Spawned(s: State) { s.dispatch == Waiting || s.dispatch == Returned }

  predicate CtlGuard(s: State, c: Ctl) {
    match c
    case Spawn | PrepareFail => s.dispatch == Preparing
    case ClientCancel => true
    case Consume => Spawned(s) && s.barrier == Counting && s.queued > 0
    case Watchdog => Spawned(s) && s.barrier == Counting
    case CDone => Spawned(s) && s.barrier == Counting && s.cancelled
    case Open => Spawned(s) && s.barrier.Releasing? && s.barrier.next < |s.ts|
                 && s.ts[s.barrier.next].m.send.None?
    case OpenEnd => Spawned(s) && s.barrier == Releasing(|s.ts|)
    case Return => s.dispatch == Waiting && (s.barrier == Opened || s.barrier == Failed)
                   && forall i :: 0 <= i < |s.ts| ==> s.ts[i].m.h == HClosed
  }

  function PutRelease(t: Target): Target {
    t.(m := t.m.(send := Some(Ncount("")), releases := t.m.releases + 1))
  }

  function CtlNext(s: State, c: Ctl): State
    requires CtlGuard(s, c)
  {
    match c
    case Spawn => s.(dispatch := Waiting)
    case PrepareFail => s.(dispatch := Aborted, cancelled := true)
    case ClientCancel => s.(cancelled := true)
    case Consume => s.(queued := s.queued - 1, connected := s.connected + 1,
                       barrier := if s.connected + 1 >= |s.ts| then Releasing(0) else Counting)
    case Watchdog => s.(barrier := Failed, cancelled := true)
    case CDone => s.(barrier := Failed)
    case Open => s.(ts := s.ts[s.barrier.next := PutRelease(s.ts[s.barrier.next])],
                    barrier := Releasing(s.barrier.next + 1))
    case OpenEnd => s.(barrier := Opened)
    case Return => s.(dispatch := Returned)
  }

  predicate Enabled(s: State, st: Step) {
    match st
    case Local(i, a) => Spawned(s) && i < |s.ts| && Guard(s, s.ts[i], a)
    case Global(c) => CtlGuard(s, c)
  }

  function Next(s: State, st: Step): State
    requires Enabled(s, st)
  {
    match st
    case Local(i, a) =>
      s.(ts := s.ts[i := After(s, s.ts[i], a)],
         cancelled := s.cancelled || Cancels(a),
         queued := if a == H(SignalN) then s.queued + 1 else s.queued)
    case Global(c) => CtlNext(s, c)
  }

  /** A run: `acts[j]` leads from `tr[j]` to `tr[j + 1]`. */
  ghost predicate Run(tr: seq<State>, acts: seq<Step>) {
    && |tr| == |acts| + 1 && Init(tr[0])
    && forall j :: 0 <= j < |acts| ==> Enabled(tr[j], acts[j]) && tr[j + 1] == Next(tr[j], acts[j])
  }

  /** NkeepMaster serves its reply timer before its retry ticker fires; it does when timers are
      served on time (Heartbeat.Refines). */
  predicate Timely(s: State, st: Step) {
    st.Local? && st.a == K(KRetry) && st.i < |s.ts| ==> s.ts[st.i].m.k == KWait(false)
  }

  ghost predicate OnTime(tr: seq<State>, acts: seq<Step>)
    requires |tr| == |acts| + 1
  {
    forall j :: 0 <= j < |acts| ==> Timely(tr[j], acts[j])
  }

  ghost predicate Reachable(s: State) {
    exists tr, acts :: Run(tr, acts) && tr[|acts|] == s
  }

  ghost predicate ReachableOnTime(s: State) {
    exists tr, acts :: Run(tr, acts) && OnTime(tr, acts) && tr[|acts|] == s
  }

  lemma StartReachable(s: State)
    requires Init(s)
    ensures Reachable(s) && ReachableOnTime(s)
  {
    var tr, acts: seq<Step> := [s], [];
    assert Run(tr, acts) && OnTime(tr, acts) && tr[|acts|] == s;
  }

  lemma RunExtends(tr: seq<State>, acts: seq<Step>, st: Step)
    requires Run(tr, acts) && Enabled(tr[|acts|], st)
    ensures Run(tr + [Next(tr[|acts|], st)], acts + [st])
  {
    var tr', acts' := tr + [Next(tr[|acts|], st)], acts + [st];
    forall j | 0 <= j < |acts'| ensures Enabled(tr'[j], acts'[j]) && tr'[j + 1] == Next(tr'[j], acts'[j]) {
      if j < |acts| { assert Enabled(tr[j], acts[j]); }
    }
  }

  lemma StepReachable(s: State, st: Step)
    requires Reachable(s) && Enabled(s, st)
    ensures Reachable(Next(s, st))
  {
    var tr, acts :| Run(tr, acts) && tr[|acts|] == s;
    var tr', acts' := tr + [Next(s, st)], acts + [st];
    RunExtends(tr, acts, st);
    assert Run(tr', acts') && tr'[|acts'|] == Next(s, st);
  }

  lemma StepOnTime(s: State, st: Step)
    requires ReachableOnTime(s) && Enabled(s, st) && Timely(s, st)
    ensures ReachableOnTime(Next(s, st))
  {
    var tr, acts :| Run(tr, acts) && OnTime(tr, acts) && tr[|acts|] == s;
    var tr', acts' := tr + [Next(s, st)], acts + [st];
    RunExtends(tr, acts, st);
    forall j | 0 <= j < |acts'| ensures Timely(tr'[j], acts'[j]) {
      if j < |acts| { assert Timely(tr[j], acts[j]); }
    }
    assert Run(tr', acts') && OnTime(tr', acts') && tr'[|acts'|] == Next(s, st);
  }
}
