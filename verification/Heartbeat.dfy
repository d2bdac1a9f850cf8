/**
 NkeepMaster with its clock. Time is discrete (milliseconds) and advances only when no
 timer is due and no heartbeat waits to be put in sendNodeChan; between two ticks any
 number of channel operations happen. The tickers are Go's: `sendt` is periodic until it
 is replaced, `recvt` is replaced on every retry and stopped on every response. Stopping a
 ticker that has fired drops the waiting tick from Go 1.23 on and leaves it before; the
 repository names no version, so `Response` may do either.
 */
module Heartbeat {
  import opened Basics
  import P = LaunchProtocol

  const RETRY: nat := 10000
  const TIMEOUT: nat := 4000

  /** Stages a heartbeat passes: sendNodeChan, wire, the node's loop, its waitNKeepChan,
      NkeepWorker, sendLcmChan, wire, the manager's loop, its waitNKeepChan. */
  const STAGES: nat := 9

  type Stages = q: seq<nat> | |q| == STAGES witness [0, 0, 0, 0, 0, 0, 0, 0, 0]

  /** `sendDue` and `recvDue` are the next firing of the tickers; `probed` is when the last
      heartbeat was sent, `heard` the later of the start and the last response. */
  datatype Keeper = Keeper(now: nat, sending: bool, sendDue: nat, recvDue: Option<nat>,
                           cancelled: bool, left: bool, probed: nat, heard: nat, stages: Stages)

  datatype Step = Tick | Beat | SendFires | RecvFires | Response(drained: bool) | Done | Cancel | Hop(k: nat)

  function Start(now: nat): Keeper {
    Keeper(now, true, now + RETRY, Some(now + TIMEOUT), false, false, now, now, seq(STAGES, _ => 0))
  }

  predicate Enabled(s: Keeper, st: Step) {
    match st
    case Tick => !s.left && !s.sending && s.now < s.sendDue && (s.recvDue.Some? ==> s.now < s.recvDue.value)
    case Beat => !s.left && s.sending && s.stages[0] == 0
    case SendFires => !s.left && !s.sending && s.now >= s.sendDue
    case RecvFires => !s.left && !s.sending && s.recvDue.Some? && s.now >= s.recvDue.value
    case Response(_) => !s.left && !s.sending && s.stages[STAGES - 1] > 0
    case Done => !s.left && !s.sending && s.cancelled
    case Cancel => true
    case Hop(k) => k < STAGES - 1 && s.stages[k] > 0
  }

  /** `recvt` has fired and its tick has not been received. */
  predicate Ringing(s: Keeper) { s.recvDue.Some? && s.now >= s.recvDue.value }

  function Next(s: Keeper, st: Step): Keeper
    requires Enabled(s, st)
  {
    match st
    case Tick => s.(now := s.now + 1)
    case Beat => s.(sending := false, recvDue := Some(s.now + TIMEOUT), probed := s.now, stages := s.stages[0 := 1])
    case SendFires => s.(sending := true, sendDue := s.sendDue + RETRY)
    case RecvFires => s.(cancelled := true, left := true)
    case Response(drained) => s.(recvDue := if Ringing(s) && !drained then s.recvDue else None, sendDue := s.now + RETRY, heard := s.now,
                        stages := s.stages[STAGES - 1 := s.stages[STAGES - 1] - 1])
    case Done => s.(left := true)
    case Cancel => s.(cancelled := true)
    case Hop(k) => s.(stages := s.stages[k := s.stages[k] - 1][k + 1 := s.stages[k + 1] + 1])
  }

  ghost predicate Run(tr: seq<Keeper>, acts: seq<Step>) {
    && |tr| == |acts| + 1 && (exists t0 :: tr[0] == Start(t0))
    && forall j :: 0 <= j < |acts| ==> Enabled(tr[j], acts[j]) && tr[j + 1] == Next(tr[j], acts[j])
  }

  lemma SumParts(q: seq<nat>, i: nat)
    requires i < |q|
    ensures q[i] <= Sum(q)
  {
    if i > 0 { SumParts(q[1..], i - 1); }
  }

  lemma SumZero(n: nat)
    ensures Sum(seq(n, _ => 0)) == 0
  {
    if n > 0 {
      assert seq(n, _ => 0)[1..] == seq(n - 1, _ => 0);
      SumZero(n - 1);
    }
  }

  /** Heartbeats in existence. */
  function InFlight(s: Keeper): nat { Sum(s.stages) }

  predicate Inv(s: Keeper) {
    && s.heard <= s.now && s.probed <= s.now
    && (s.left ==> s.cancelled)
    && (!s.left ==>
          (if s.sending then
             InFlight(s) == 0 && s.now <= s.heard + RETRY && s.sendDue == s.now + RETRY
           else if s.recvDue.Some? && InFlight(s) == 0 then
             Ringing(s) && s.now == s.heard == s.probed + TIMEOUT == s.recvDue.value && s.sendDue == s.now + RETRY
           else if s.recvDue.Some? then
             && s.recvDue.value == s.probed + TIMEOUT && s.now <= s.recvDue.value
             && s.sendDue == s.probed + RETRY && s.probed <= s.heard + RETRY
           else
             InFlight(s) == 0 && s.sendDue == s.heard + RETRY && s.now <= s.sendDue))
    && InFlight(s) <= 1
  }

  lemma InFlightStep(s: Keeper, st: Step)
    requires Enabled(s, st)
    ensures InFlight(Next(s, st)) == InFlight(s) + (if st == Beat then 1 else if st.Response? then -1 else 0)
    ensures st.Response? ==> InFlight(s) > 0
  {
    match st
    case Beat => SumUpdate(s.stages, 0, 1);
    case Response(_) =>
      SumParts(s.stages, STAGES - 1);
      SumUpdate(s.stages, STAGES - 1, s.stages[STAGES - 1] - 1);
    case Hop(k) =>
      SumUpdate(s.stages, k, s.stages[k] - 1);
      SumUpdate(s.stages[k := s.stages[k] - 1], k + 1, s.stages[k + 1] + 1);
    case _ =>
  }

  lemma StepInv(s: Keeper, st: Step)
    requires Inv(s) && Enabled(s, st)
    ensures Inv(Next(s, st))
  {
    InFlightStep(s, st);
  }

  lemma {:induction false} RunInv(tr: seq<Keeper>, acts: seq<Step>, n: nat)
    requires Run(tr, acts) && n < |tr|
    ensures Inv(tr[n])
  {
    if n == 0 {
      SumZero(STAGES);
    } else {
      RunInv(tr, acts, n - 1);
      StepInv(tr[n - 1], acts[n - 1]);
    }
  }

  /** A keeper that has not left is never more than 14 s past its start or its last
      response: a silent node is noticed within that time. */
  lemma SilenceIsBounded(tr: seq<Keeper>, acts: seq<Step>, n: nat)
    requires Run(tr, acts) && n < |tr| && !tr[n].cancelled
    ensures tr[n].now <= tr[n].heard + 14000
  {
    RunInv(tr, acts, n);
  }

  /** After a response the next heartbeat is due 10 s later, neither earlier nor later. */
  lemma RetriesAfterTenSeconds(tr: seq<Keeper>, acts: seq<Step>, n: nat)
    requires Run(tr, acts) && n < |tr| && !tr[n].left && !tr[n].sending && tr[n].recvDue.None?
    ensures tr[n].now <= tr[n].heard + 10000
    ensures Enabled(tr[n], SendFires) <==> tr[n].now == tr[n].heard + 10000
  {
    RunInv(tr, acts, n);
  }

  /** The last heartbeat was answered at the present instant by a response that left the tick. */
  ghost predicate TickLeft(tr: seq<Keeper>, acts: seq<Step>, n: nat)
    requires |tr| == |acts| + 1 && n < |tr|
  {
    exists j :: 0 <= j < n && acts[j] == Response(false) && tr[j].now == tr[n].now && tr[j].probed == tr[n].probed
  }

  lemma {:induction false} TickComesFromResponse(tr: seq<Keeper>, acts: seq<Step>, n: nat)
    requires Run(tr, acts) && n < |tr| && !tr[n].left && !tr[n].sending
    requires Ringing(tr[n]) && InFlight(tr[n]) == 0
    ensures TickLeft(tr, acts, n)
  {
    RunInv(tr, acts, n);
    if n == 0 {
      assert false;
    } else {
      RunInv(tr, acts, n - 1);
      var s, st := tr[n - 1], acts[n - 1];
      assert Enabled(s, st) && tr[n] == Next(s, st);
      if st != Response(false) {
        InFlightStep(s, st);
        TickComesFromResponse(tr, acts, n - 1);
      }
    }
  }

  /** A tick left behind stays until it is received. */
  lemma {:induction false} TickStays(tr: seq<Keeper>, acts: seq<Step>, j: nat, n: nat)
    requires Run(tr, acts) && j < n < |tr| && acts[j] == Response(false) && Ringing(tr[j])
    ensures tr[n].left || (!tr[n].sending && Ringing(tr[n]) && InFlight(tr[n]) == 0)
  {
    RunInv(tr, acts, n - 1);
    var s, st := tr[n - 1], acts[n - 1];
    assert Enabled(s, st) && tr[n] == Next(s, st);
    InFlightStep(s, st);
    if j < n - 1 { TickStays(tr, acts, j, n - 1); }
  }

  /** NkeepMaster can cancel exactly when the last heartbeat is 4 s old and either still on its
      way, or answered in this very moment with the tick of `recvt` left behind. So it never
      does while every heartbeat is answered in less. */
  lemma CancelsOnlyUnanswered(tr: seq<Keeper>, acts: seq<Step>, n: nat)
    requires Run(tr, acts) && n < |tr| && !tr[n].left && !tr[n].sending
    ensures Enabled(tr[n], RecvFires) <==>
      tr[n].now == tr[n].probed + 4000 && (InFlight(tr[n]) == 1 || TickLeft(tr, acts, n))
  {
    RunInv(tr, acts, n);
    if Enabled(tr[n], RecvFires) && InFlight(tr[n]) == 0 { TickComesFromResponse(tr, acts, n); }
    if TickLeft(tr, acts, n) && tr[n].now == tr[n].probed + TIMEOUT {
      var j :| 0 <= j < n && acts[j] == Response(false) && tr[j].now == tr[n].now && tr[j].probed == tr[n].probed;
      ResponseInFlight(tr, acts, j);
      TickStays(tr, acts, j, n);
    }
  }

  lemma ResponseInFlight(tr: seq<Keeper>, acts: seq<Step>, j: nat)
    requires Run(tr, acts) && j < |acts| && acts[j].Response?
    ensures InFlight(tr[j]) == 1 && Inv(tr[j]) && !tr[j].left && !tr[j].sending
  {
    RunInv(tr, acts, j);
    assert Enabled(tr[j], acts[j]);
    InFlightStep(tr[j], acts[j]);
  }

  lemma NeverCancelsWhenAnswered(tr: seq<Keeper>, acts: seq<Step>, n: nat)
    requires Run(tr, acts) && n < |acts|
    requires forall j :: 0 <= j < |tr| && InFlight(tr[j]) == 1 ==> tr[j].now < tr[j].probed + 4000
    ensures acts[n] != RecvFires
  {
    if acts[n] == RecvFires {
      assert Enabled(tr[n], RecvFires);
      CancelsOnlyUnanswered(tr, acts, n);
      if InFlight(tr[n]) != 1 {
        var j :| 0 <= j < n && acts[j] == Response(false) && tr[j].now == tr[n].now && tr[j].probed == tr[n].probed;
        ResponseInFlight(tr, acts, j);
      }
      assert false;
    }
  }

  /** At most one heartbeat exists, so every channel it is put in has room for it. */
  lemma OneHeartbeat(tr: seq<Keeper>, acts: seq<Step>, n: nat, k: nat)
    requires Run(tr, acts) && n < |tr| && k < STAGES
    ensures InFlight(tr[n]) <= 1
    ensures k + 1 < STAGES && tr[n].stages[k] > 0 ==> tr[n].stages[k + 1] == 0
    ensures !tr[n].left && tr[n].sending ==> tr[n].stages[0] == 0
  {
    RunInv(tr, acts, n);
    SumParts(tr[n].stages, 0);
    if k + 1 < STAGES { SumTwo(tr[n].stages, k); }
  }

  lemma SumTwo(q: seq<nat>, k: nat)
    requires k + 1 < |q|
    ensures q[k] + q[k + 1] <= Sum(q)
  {
    if k > 0 { SumTwo(q[1..], k - 1); }
  }

  // ---- the untimed NkeepMaster of LaunchProtocol ------------------------------------

  function Abs(s: Keeper): P.KPc {
    if s.left then P.KLeft else if s.sending then P.KSend else P.KWait(s.recvDue.Some?)
  }

  function ActOf(s: Keeper, st: Step): Option<P.KAct> {
    match st
    case Beat => Some(P.KBeat)
    case SendFires => Some(P.KRetry)
    case RecvFires => Some(P.KTimeout)
    case Response(drained) => Some(if Ringing(s) && !drained then P.KLateReply else P.KReply)
    case Done => Some(P.KDone)
    case _ => None
  }

  /** The two see the same: where NkeepMaster is, its context, and whether a heartbeat is in
      sendNodeChan and a reply in waitNKeepChan. */
  predicate Matches(s: Keeper, cancelled: bool, t: P.Target) {
    && t.m.k == Abs(s) && cancelled == s.cancelled
    && (t.m.send == Some(P.Nkeep) <==> s.stages[0] > 0)
    && (t.m.keep <==> s.stages[STAGES - 1] > 0)
  }

  /** The clocked NkeepMaster does nothing the untimed one cannot do, with the same effect on
      its channels and its context; it is always on time: its retry ticker only fires when its
      last heartbeat has been answered. A release in sendNodeChan only makes it wait. */
  lemma Refines(tr: seq<Keeper>, acts: seq<Step>, n: nat, s: P.State, t: P.Target)
    requires Run(tr, acts) && n < |acts| && Matches(tr[n], s.cancelled, t)
    requires acts[n] == Beat ==> t.m.send.None? || t.m.send == Some(P.Nkeep)
    ensures var act := ActOf(tr[n], acts[n]);
      act.Some? ==>
        && P.KGuard(s, t, act.value)
        && (act.value == P.KRetry ==> t.m.k == P.KWait(false))
        && Matches(tr[n + 1], s.cancelled || P.Cancels(P.K(act.value)), P.KNext(t, act.value))
    ensures acts[n] == Tick ==> Matches(tr[n + 1], s.cancelled, t)
    ensures acts[n] == Cancel ==> Matches(tr[n + 1], true, t)
  {
    RunInv(tr, acts, n);
    RunInv(tr, acts, n + 1);
    assert Enabled(tr[n], acts[n]);
    SumTwo(tr[n].stages, 0);
    SumParts(tr[n].stages, STAGES - 1);
    SumEnds(tr[n].stages);
  }

  lemma SumEnds(q: seq<nat>)
    requires |q| > 1
    ensures q[0] + q[|q| - 1] <= Sum(q)
  {
    SumParts(q[1..], |q| - 2);
  }
}
