/**
 Reclaiming takes a bounded number of steps: apart from healthy heartbeats and repeated
 client cancels, every step, failures included, uses up some of a rank that only depends
 on the state. So a run that stops beating settles, whatever the interleaving.
 */
module LaunchProgress {
  import opened Basics
  import opened LaunchProtocol
  import opened LaunchInvariants
  import opened LaunchTeardown

  /** Steps still ahead of the messages in a channel, given the weight of each kind. */
  function Load(q: seq<Msg>, ncount: nat, beat: nat): (r: nat) {
    NcountsBound(q);
    ncount * Ncounts(q) + beat * (|q| - Ncounts(q))
  }

  function HRank(h: HPc): nat {
    match h
    case HConnecting => 300
    case HGreeting => 250
    case HLoop => 100
    case HSignalN => 104
    case HSignalK => 131
    case HJoining => 10
    case HClosed => 0
  }

  function KRank(loop: bool, k: KPc): nat {
    match k
    case KIdle => 0
    case KSend => if loop then 43 else 5
    case KWait(_) => if loop then 4 else 6
    case KLeft => 0
  }

  /** Outside the handler's loop a heartbeat in sendNodeChan goes nowhere. */
  function SendRank(loop: bool, send: Option<Msg>): nat {
    match send
    case None => if loop then 0 else 2
    case Some(m) => if m.Ncount? then 7 else if loop then 38 else 0
  }

  function NRank(n: NPc): nat {
    match n
    case NIdle => 400
    case NLoop => 50
    case NPassN(_) => 55
    case NPassK => 86
    case NJoining => 5
    case NClosed => 0
  }

  function TRank(waitDeps: bool, t: TPc): nat {
    match t
    case TIdle => 0
    case TStart => if waitDeps then 20 else 40
    case TCheckIn => if waitDeps then 40 else 30
    case TAwait => if waitDeps then 30 else 20
    case TJoin => 10
    case TDone => 0
  }

  function PRank(p: Proc): nat {
    match p
    case PNone => 0
    case PRunning => 3
    case PExited => 2
    case PReaped => 1
  }

  function XRank(x: XPc): nat { if x == XWatch then 2 else if x == XKill then 1 else 0 }

  function WRank(w: WPc): nat { if w == WListen then 1 else if w == WReply then 35 else 0 }

  function If(b: bool, r: nat): nat { if b then r else 0 }

  function TargetRank(t: Target): nat {
    HRank(t.m.h) + KRank(Looping(t.m.h), t.m.k) + SendRank(Looping(t.m.h), t.m.send) + If(t.m.keep, 30)
    + NRank(t.d.n) + TRank(t.waitDeps, t.d.t) + PRank(t.d.p) + XRank(t.d.x) + WRank(t.d.w)
    + If(t.d.wait.Some?, 4) + If(t.d.keep, 35)
    + Load(t.down, 6, 37) + Load(t.d.out, 6, 33) + Load(t.up, 5, 32)
  }

  /** The two kinds of step that use nothing up. */
  predicate Idles(s: State, st: Step) {
    Beat(s, st) || st == Global(ClientCancel)
  }

  lemma LoadPut(q: seq<Msg>, m: Msg, ncount: nat, beat: nat)
    ensures Load(Put(q, m), ncount, beat) == Load(q, ncount, beat) + (if m.Ncount? then ncount else beat)
  {
  }

  lemma LoadRest(q: seq<Msg>, ncount: nat, beat: nat)
    requires q != []
    ensures Load(Rest(q), ncount, beat) + (if q[0].Ncount? then ncount else beat) == Load(q, ncount, beat)
  {
  }

  lemma WriteRanked(s: State, t: Target)
    requires HGuard(s, t, Write)
    ensures TargetRank(HNext(t, Write)) < TargetRank(t)
  {
    var t' := HNext(t, Write);
    assert t'.d == t.d && t'.up == t.up && t'.m.k == t.m.k && t'.m.keep == t.m.keep && t'.waitDeps == t.waitDeps;
    assert SendRank(true, t'.m.send) == 0;
    if t.m.send.value.Nkeep? {
      LoadPut(t.down, Nkeep, 6, 37);
    } else if t.m.resp.Some? {
      LoadPut(t.down, Ncount(t.m.resp.value), 6, 37);
    } else {
      assert t'.down == t.down;
    }
  }

  lemma HOthersRanked(s: State, t: Target, a: HAct)
    requires MgrControl(s.cancelled, t) && HGuard(s, t, a) && a != Write
    ensures TargetRank(HNext(t, a)) + If(a == SignalN, 2) < TargetRank(t)
  {
  }

  lemma KRanked(s: State, t: Target, a: KAct)
    requires KGuard(s, t, a) && !(a == KRetry && Looping(t.m.h))
    ensures TargetRank(KNext(t, a)) < TargetRank(t)
  {
  }

  lemma NWriteRanked(t: Target, a: NAct)
    requires NGuard(t, a) && (a == NWrite || a == NWriteFail)
    ensures TargetRank(NNext(t, a)) < TargetRank(t)
  {
  }

  lemma NRecvRanked(t: Target)
    requires NGuard(t, NRecv)
    ensures TargetRank(NNext(t, NRecv)) < TargetRank(t)
  {
    var t' := NNext(t, NRecv);
    LoadRest(t.down, 6, 37);
    assert t'.m == t.m && t'.up == t.up && t'.d == t.d.(n := t'.d.n) && t'.waitDeps == t.waitDeps;
  }

  lemma NOthersRanked(t: Target, a: NAct)
    requires NGuard(t, a) && NodeControl(t) && a != NWrite && a != NWriteFail && a != NRecv
    ensures TargetRank(NNext(t, a)) < TargetRank(t)
  {
  }

  lemma WSendRanked(t: Target, a: WAct)
    requires WGuard(t, a) && (a == SendIn || a == Reply)
    ensures TargetRank(WNext(t, a)) < TargetRank(t)
  {
  }

  lemma ReleaseRanked(t: Target)
    requires WGuard(t, Release)
    ensures TargetRank(WNext(t, Release)) < TargetRank(t)
  {
    var t' := WNext(t, Release);
    assert t'.d == t.d.(wait := None, passes := t'.d.passes, cancelled := t'.d.cancelled, t := t'.d.t);
  }

  lemma WOthersRanked(t: Target, a: WAct)
    requires WGuard(t, a) && ProcControl(t) && a != SendIn && a != Reply && a != Release
    ensures TargetRank(WNext(t, a)) < TargetRank(t)
  {
    var t' := WNext(t, a);
    assert t'.m == t.m && t'.up == t.up && t'.down == t.down && t'.d.out == t.d.out && t'.d.n == t.d.n;
  }

  lemma PRanked(t: Target, a: PAct)
    requires PGuard(t, a)
    ensures TargetRank(PNext(t, a)) < TargetRank(t)
  {
  }

  lemma ActRanked(s: State, t: Target, a: Act)
    requires TargetInv(s.cancelled, t) && Guard(s, t, a) && !(a == K(KRetry) && Looping(t.m.h))
    ensures TargetRank(After(s, t, a)) + If(a == H(SignalN), 2) < TargetRank(t)
  {
    match a
    case H(h) => if h == Write { WriteRanked(s, t); } else { HOthersRanked(s, t, h); }
    case K(k) => KRanked(s, t, k);
    case N(n) =>
      if n == NRecv { NRecvRanked(t); }
      else if n == NWrite || n == NWriteFail { NWriteRanked(t, n); }
      else { NOthersRanked(t, n); }
    case W(w) =>
      if w == SendIn || w == Reply { WSendRanked(t, w); }
      else if w == Release { ReleaseRanked(t); }
      else { WOthersRanked(t, w); }
    case P(p) => PRanked(t, p);
  }

  // ---- the whole task ---------------------------------------------------------------

  function Ranks(ts: seq<Target>): seq<nat> {
    seq(|ts|, i requires 0 <= i < |ts| => TargetRank(ts[i]))
  }

  function SumRank(ts: seq<Target>): nat { Sum(Ranks(ts)) }

  lemma SumRankUpdate(ts: seq<Target>, i: nat, t: Target)
    requires i < |ts|
    ensures SumRank(ts[i := t]) == SumRank(ts) - TargetRank(ts[i]) + TargetRank(t)
  {
    assert Ranks(ts[i := t]) == Ranks(ts)[i := TargetRank(t)];
    SumUpdate(Ranks(ts), i, TargetRank(t));
  }

  lemma SumRankDrops(ts: seq<Target>, i: nat, t: Target, spare: nat)
    requires i < |ts| && TargetRank(t) + spare < TargetRank(ts[i])
    ensures SumRank(ts[i := t]) + spare < SumRank(ts)
  {
    SumRankUpdate(ts, i, t);
  }

  function BarrierRank(s: State): int {
    match s.barrier
    case Counting => 10 * |s.ts| + 2
    case Releasing(next) => 10 * (|s.ts| - next) + 1
    case _ => 0
  }

  function DispatchRank(d: Dispatch): nat {
    match d
    case Preparing => 2
    case Waiting => 1
    case _ => 0
  }

  function Rank(s: State): int {
    SumRank(s.ts) + 2 * s.queued + BarrierRank(s) + DispatchRank(s.dispatch)
  }

  lemma OpenRanked(s: State)
    requires CtlGuard(s, Open)
    ensures SumRank(CtlNext(s, Open).ts) <= SumRank(s.ts) + 7
  {
    var t := s.ts[s.barrier.next];
    assert TargetRank(PutRelease(t)) <= TargetRank(t) + 7;
    SumRankUpdate(s.ts, s.barrier.next, PutRelease(t));
  }

  lemma CtlRanked(s: State, c: Ctl)
    requires CtlGuard(s, c) && c != ClientCancel && BarrierInv(s)
    ensures Rank(CtlNext(s, c)) < Rank(s)
  {
    if c == Open { OpenRanked(s); } else { assert CtlNext(s, c).ts == s.ts; }
  }

  lemma LocalRanked(s: State, i: nat, a: Act)
    requires AllTargets(s) && Enabled(s, Local(i, a)) && !Beat(s, Local(i, a))
    ensures Rank(Next(s, Local(i, a))) < Rank(s)
  {
    var t' := After(s, s.ts[i], a);
    ActRanked(s, s.ts[i], a);
    SumRankDrops(s.ts, i, t', If(a == H(SignalN), 2));
    OthersUnranked(s, i, a);
  }

  lemma OthersUnranked(s: State, i: nat, a: Act)
    requires Enabled(s, Local(i, a))
    ensures var s' := Next(s, Local(i, a));
      && s'.ts == s.ts[i := After(s, s.ts[i], a)]
      && Rank(s') == SumRank(s'.ts) + 2 * s.queued + If(a == H(SignalN), 2) + BarrierRank(s) + DispatchRank(s.dispatch)
  {
  }

  lemma StepRanked(s: State, st: Step)
    requires Inv(s) && Enabled(s, st) && !Idles(s, st)
    ensures Rank(Next(s, st)) < Rank(s)
  {
    match st
    case Local(i, a) => LocalRanked(s, i, a);
    case Global(c) => CtlRanked(s, c);
  }

  lemma RankNonNegative(s: State)
    requires BarrierInv(s)
    ensures Rank(s) >= 0
  {
  }

  lemma {:induction false} Countdown(ranks: seq<int>, a: nat, b: nat)
    requires a <= b < |ranks|
    requires forall j :: a <= j < b ==> ranks[j + 1] < ranks[j]
    ensures b - a <= ranks[a] - ranks[b]
  {
    if a < b { Countdown(ranks, a, b - 1); }
  }

  /** From any point of any run, at most Rank steps follow one another without a heartbeat of
      a handler in its loop: a task that stops beating settles. */
  lemma Settles(tr: seq<State>, acts: seq<Step>, a: nat, b: nat)
    requires Run(tr, acts) && a <= b < |tr|
    requires forall j :: a <= j < b ==> !Idles(tr[j], acts[j])
    ensures b - a <= Rank(tr[a])
  {
    var ranks := seq(|tr|, j requires 0 <= j < |tr| => Rank(tr[j]));
    forall j | a <= j < b ensures ranks[j + 1] < ranks[j] {
      RankedAt(tr, acts, j);
    }
    Countdown(ranks, a, b);
    NonNegativeAt(tr, acts, b);
  }

  lemma RankedAt(tr: seq<State>, acts: seq<Step>, j: nat)
    requires Run(tr, acts) && j < |acts| && !Idles(tr[j], acts[j])
    ensures Rank(tr[j + 1]) < Rank(tr[j])
  {
    RunInv(tr, acts, j);
    StepRanked(tr[j], acts[j]);
  }

  lemma NonNegativeAt(tr: seq<State>, acts: seq<Step>, j: nat)
    requires Run(tr, acts) && j < |tr|
    ensures Rank(tr[j]) >= 0
  {
    RunInv(tr, acts, j);
    RankNonNegative(tr[j]);
  }
}
