/**
 Every interleaving of run, stop, stop-all and the launches themselves. A task is numbered by
 the run request that created it; its context and its dispatchCommToNodes are a launch of
 LaunchProtocol, so what is proved there holds of every task in the registry.
 */
module RegistryRuns {
  import opened Basics
  import opened Registry
  import L = LaunchProtocol
  import Theorems = LaunchTheorems
  import Teardown = LaunchTeardown

  /** `Fetching` is a run request looking for the command; `NotFound` when there is none.
      `Ended` has removed its entry; what its launch left on the nodes may still be going on. */
  datatype Phase = Fetching | NotFound | Dispatched | Ended
  datatype Answer = Pending | Finish | Error
  datatype Task = Task(name: string, blocking: bool, phase: Phase, launch: L.State, answer: Answer)
  /** A stop request between looking a task up and cancelling it; `born` tasks existed then. */
  datatype Stop = Stop(id: nat, born: nat)
  datatype State = State(reg: map<string, nat>, tasks: seq<Task>, stops: seq<Stop>)

  // ---- one task ---------------------------------------------------------------------

  datatype Event =
    | FetchFails | FetchSucceeds(targets: seq<L.Target>)
    | Launch(st: L.Step)                    // any step of the dispatched launch
    | Ends                                  // dispatchCommToNodes has returned: deferred deleteCommTask
    | Answers                               // a blocking run sees its context done
    | ClientGone                            // a blocking run sees its gRPC context done

  /** A context that nothing has been dispatched with. */
  function Undispatched(cancelled: bool, targets: seq<L.Target>): L.State {
    L.State(cancelled, 0, 0, L.Counting, L.Preparing, targets)
  }

  predicate AllFresh(targets: seq<L.Target>) {
    forall i :: 0 <= i < |targets| ==> targets[i] == L.FreshTarget(targets[i].waitDeps, targets[i].code)
  }

  predicate Over(s: L.State) { s.dispatch == L.Returned || s.dispatch == L.Aborted }

  /** A run request blocked on its select. */
  predicate Waits(t: Task) { t.blocking && (t.phase == Dispatched || t.phase == Ended) && t.answer == Pending }

  predicate Guard(t: Task, e: Event) {
    match e
    case FetchFails => t.phase == Fetching
    case FetchSucceeds(targets) => t.phase == Fetching && AllFresh(targets)
    case Launch(st) =>
      (t.phase == Dispatched || t.phase == Ended) && st != L.Global(L.ClientCancel) && L.Enabled(t.launch, st)
    case Ends => t.phase == Dispatched && Over(t.launch)
    case Answers => Waits(t) && t.launch.cancelled
    case ClientGone => Waits(t)
  }

  function Cancelled(t: Task): Task { t.(launch := L.Next(t.launch, L.Global(L.ClientCancel))) }

  function After(t: Task, e: Event): Task
    requires Guard(t, e)
  {
    match e
    case FetchFails => t.(phase := NotFound, answer := Error)
    case FetchSucceeds(targets) => t.(phase := Dispatched, launch := Undispatched(t.launch.cancelled, targets))
    case Launch(st) => t.(launch := L.Next(t.launch, st))
    case Ends => t.(phase := Ended)
    case Answers => t.(answer := Finish)
    case ClientGone => Cancelled(t).(answer := Finish)
  }

  predicate GivesUpName(e: Event) { e == FetchFails || e == Ends }

  predicate IsLive(t: Task) { t.phase == Fetching || t.phase == Dispatched }

  // ---- the registry -----------------------------------------------------------------

  datatype Step =
    | RunRequest(name: string, blocking: bool)
    | Of(id: nat, e: Event)
    | StopLooksUp(name: string) | StopCancels(k: nat)
    | StopAll

  predicate Live(s: State, id: nat) { id < |s.tasks| && IsLive(s.tasks[id]) }

  predicate Enabled(s: State, st: Step) {
    match st
    case RunRequest(_, _) => true
    case Of(id, e) => id < |s.tasks| && Guard(s.tasks[id], e)
    case StopLooksUp(name) => name in s.reg
    case StopCancels(k) => k < |s.stops| && s.stops[k].id < |s.tasks|
    case StopAll => true
  }

  predicate HitByStopAll(s: State, i: nat)
    requires i < |s.tasks|
  {
    var name := s.tasks[i].name;
    name in s.reg && s.reg[name] == i && name != COMPOSITORS
  }

  function Next(s: State, st: Step): State
    requires Enabled(s, st)
  {
    match st
    case RunRequest(name, blocking) =>
      if name in s.reg || name == "" then s
      else s.(reg := Added(s.reg, name, |s.tasks|),
              tasks := s.tasks + [Task(name, blocking, Fetching, Undispatched(false, []), Pending)])
    case Of(id, e) =>
      s.(reg := if GivesUpName(e) then Removed(s.reg, s.tasks[id].name) else s.reg,
         tasks := s.tasks[id := After(s.tasks[id], e)])
    case StopLooksUp(name) => s.(stops := s.stops + [Stop(s.reg[name], |s.tasks|)])
    case StopCancels(k) =>
      s.(tasks := s.tasks[s.stops[k].id := Cancelled(s.tasks[s.stops[k].id])], stops := s.stops[..k] + s.stops[k + 1..])
    case StopAll =>
      s.(tasks := seq(|s.tasks|, i requires 0 <= i < |s.tasks| =>
           if HitByStopAll(s, i) then Cancelled(s.tasks[i]) else s.tasks[i]))
  }

  ghost predicate Run(tr: seq<State>, acts: seq<Step>) {
    && |tr| == |acts| + 1 && tr[0] == State(map[], [], [])
    && forall j :: 0 <= j < |acts| ==> Enabled(tr[j], acts[j]) && tr[j + 1] == Next(tr[j], acts[j])
  }

  predicate Timely(s: State, st: Step)
    requires Enabled(s, st)
  {
    st.Of? && st.e.Launch? ==> L.Timely(s.tasks[st.id].launch, st.e.st)
  }

  ghost predicate OnTime(tr: seq<State>, acts: seq<Step>)
    requires Run(tr, acts)
  {
    forall j :: 0 <= j < |acts| ==> Timely(tr[j], acts[j])
  }

  // ---- what every step keeps of a task ----------------------------------------------

  ghost predicate TaskInv(t: Task) {
    && L.Reachable(t.launch)
    && (t.phase == Fetching || t.phase == NotFound ==> t.launch == Undispatched(t.launch.cancelled, []))
    && (t.phase == Ended ==> Over(t.launch))
    && (t.answer == Finish ==> t.launch.cancelled)
    && (t.answer == Error <==> t.phase == NotFound)
  }

  lemma UndispatchedIsReachable(cancelled: bool, targets: seq<L.Target>)
    requires AllFresh(targets)
    ensures L.Reachable(Undispatched(cancelled, targets)) && L.ReachableOnTime(Undispatched(cancelled, targets))
  {
    var s := Undispatched(false, targets);
    L.StartReachable(s);
    if cancelled {
      L.StepReachable(s, L.Global(L.ClientCancel));
      L.StepOnTime(s, L.Global(L.ClientCancel));
    }
  }

  /** A cancelled context stays cancelled, a dispatch that is over stays over. */
  lemma LaunchKeeps(s: L.State, st: L.Step)
    requires L.Enabled(s, st)
    ensures s.cancelled ==> L.Next(s, st).cancelled
    ensures Over(s) ==> Over(L.Next(s, st))
  {
  }

  lemma CancelledInv(t: Task)
    requires TaskInv(t)
    ensures TaskInv(Cancelled(t))
  {
    L.StepReachable(t.launch, L.Global(L.ClientCancel));
  }

  lemma EventInv(t: Task, e: Event)
    requires TaskInv(t) && Guard(t, e)
    ensures TaskInv(After(t, e)) && After(t, e).name == t.name
    ensures IsLive(After(t, e)) <==> IsLive(t) && !GivesUpName(e)
  {
    match e
    case FetchSucceeds(targets) => UndispatchedIsReachable(t.launch.cancelled, targets);
    case Launch(st) => L.StepReachable(t.launch, st); LaunchKeeps(t.launch, st);
    case ClientGone => CancelledInv(t);
    case _ =>
  }

  lemma EventOnTime(t: Task, e: Event)
    requires L.ReachableOnTime(t.launch) && Guard(t, e) && (e.Launch? ==> L.Timely(t.launch, e.st))
    ensures L.ReachableOnTime(After(t, e).launch)
  {
    match e
    case FetchSucceeds(targets) => UndispatchedIsReachable(t.launch.cancelled, targets);
    case Launch(st) => L.StepOnTime(t.launch, st);
    case ClientGone => L.StepOnTime(t.launch, L.Global(L.ClientCancel));
    case _ =>
  }

  // ---- what every step keeps of the registry ----------------------------------------

  /** Each entry belongs to exactly one live task, and each live task has its entry. */
  ghost predicate RegInv(s: State) {
    && "" !in s.reg
    && (forall n :: n in s.reg ==> Live(s, s.reg[n]) && s.tasks[s.reg[n]].name == n)
    && (forall id: nat :: Live(s, id) ==> s.tasks[id].name in s.reg && s.reg[s.tasks[id].name] == id)
    && (forall k :: 0 <= k < |s.stops| ==> s.stops[k].id < s.stops[k].born <= |s.tasks|)
  }

  ghost predicate Inv(s: State) {
    RegInv(s) && forall id :: 0 <= id < |s.tasks| ==> TaskInv(s.tasks[id])
  }

  lemma RequestRegInv(s: State, t: Task)
    requires RegInv(s) && t.name !in s.reg && t.name != "" && IsLive(t)
    ensures RegInv(s.(reg := s.reg[t.name := |s.tasks|], tasks := s.tasks + [t]))
  {
  }

  lemma RequestInv(s: State, st: Step)
    requires Inv(s) && Enabled(s, st) && st.RunRequest?
    ensures Inv(Next(s, st))
  {
    var t := Task(st.name, st.blocking, Fetching, Undispatched(false, []), Pending);
    UndispatchedIsReachable(false, []);
    assert TaskInv(t);
    if st.name !in s.reg && st.name != "" { RequestRegInv(s, t); }
  }

  lemma LookUpInv(s: State, st: Step)
    requires Inv(s) && Enabled(s, st) && st.StopLooksUp?
    ensures Inv(Next(s, st))
  {
  }

  lemma EventRegInv(s: State, id: nat, t': Task, freed: bool)
    requires RegInv(s) && id < |s.tasks|
    requires t'.name == s.tasks[id].name && (IsLive(t') <==> IsLive(s.tasks[id]) && !freed)
    requires freed ==> IsLive(s.tasks[id])
    ensures RegInv(s.(reg := if freed then Removed(s.reg, t'.name) else s.reg, tasks := s.tasks[id := t']))
  {
    assert IsLive(s.tasks[id]) ==> Live(s, id);
  }

  /** `s'` is `s` with some tasks cancelled and some stops done. */
  ghost predicate CancelsSome(s: State, s': State) {
    && s'.reg == s.reg && |s'.tasks| == |s.tasks|
    && (forall i :: 0 <= i < |s.tasks| ==> s'.tasks[i] == s.tasks[i] || s'.tasks[i] == Cancelled(s.tasks[i]))
    && forall stop :: stop in s'.stops ==> stop in s.stops
  }

  lemma StopsCancel(s: State, st: Step)
    requires Enabled(s, st) && (st.StopCancels? || st.StopAll?)
    ensures CancelsSome(s, Next(s, st))
  {
  }

  lemma CancelsRegInv(s: State, s': State)
    requires RegInv(s) && CancelsSome(s, s')
    ensures RegInv(s')
  {
    assert forall i: nat :: Live(s', i) <==> Live(s, i);
    assert forall k :: 0 <= k < |s'.stops| ==> s'.stops[k] in s.stops;
  }

  lemma CancelsInv(s: State, s': State)
    requires Inv(s) && CancelsSome(s, s')
    ensures Inv(s')
  {
    CancelsRegInv(s, s');
    forall i | 0 <= i < |s.tasks| ensures TaskInv(s'.tasks[i]) {
      CancelledInv(s.tasks[i]);
    }
  }

  lemma StepInv(s: State, st: Step)
    requires Inv(s) && Enabled(s, st)
    ensures Inv(Next(s, st))
  {
    match st
    case Of(id, e) =>
      EventInv(s.tasks[id], e);
      EventRegInv(s, id, After(s.tasks[id], e), GivesUpName(e));
    case StopCancels(_) => StopsCancel(s, st); CancelsInv(s, Next(s, st));
    case StopAll => StopsCancel(s, st); CancelsInv(s, Next(s, st));
    case RunRequest(_, _) => RequestInv(s, st);
    case StopLooksUp(_) => LookUpInv(s, st);
  }

  lemma {:induction false} RunInv(tr: seq<State>, acts: seq<Step>, n: nat)
    requires Run(tr, acts) && n < |tr|
    ensures Inv(tr[n])
  {
    if n > 0 {
      RunInv(tr, acts, n - 1);
      StepInv(tr[n - 1], acts[n - 1]);
    }
  }

  ghost predicate AllOnTime(s: State) {
    forall id :: 0 <= id < |s.tasks| ==> L.ReachableOnTime(s.tasks[id].launch)
  }

  lemma StepKeepsOnTime(s: State, st: Step)
    requires AllOnTime(s) && Enabled(s, st) && Timely(s, st)
    ensures AllOnTime(Next(s, st))
  {
    match st
    case Of(id, e) => EventOnTime(s.tasks[id], e);
    case RunRequest(_, _) => UndispatchedIsReachable(false, []);
    case StopLooksUp(_) =>
    case _ =>
      forall i | 0 <= i < |s.tasks| ensures L.ReachableOnTime(Cancelled(s.tasks[i]).launch) {
        L.StepOnTime(s.tasks[i].launch, L.Global(L.ClientCancel));
      }
  }

  lemma {:induction false} RunOnTime(tr: seq<State>, acts: seq<Step>, n: nat)
    requires Run(tr, acts) && OnTime(tr, acts) && n < |tr|
    ensures AllOnTime(tr[n])
  {
    if n > 0 {
      RunOnTime(tr, acts, n - 1);
      StepKeepsOnTime(tr[n - 1], acts[n - 1]);
    }
  }

  // ---- names ------------------------------------------------------------------------

  /** A name is taken exactly while one live task has it, so a run is refused as busy exactly
      then (or for the empty name). */
  lemma OneLiveTask(tr: seq<State>, acts: seq<Step>, n: nat, name: string)
    requires Run(tr, acts) && n < |tr|
    ensures name in tr[n].reg <==> exists id: nat :: Live(tr[n], id) && tr[n].tasks[id].name == name
    ensures forall i: nat, j: nat ::
      Live(tr[n], i) && Live(tr[n], j) && tr[n].tasks[i].name == tr[n].tasks[j].name ==> i == j
  {
    RunInv(tr, acts, n);
    if name in tr[n].reg { assert Live(tr[n], tr[n].reg[name]); }
  }

  /** A run request with a free, non-empty name creates a live task; any other changes nothing. */
  lemma AcceptedIffFree(tr: seq<State>, acts: seq<Step>, n: nat)
    requires Run(tr, acts) && n < |acts| && acts[n].RunRequest?
    ensures var s, s', name := tr[n], tr[n + 1], acts[n].name;
      if name != "" && forall id: nat :: Live(s, id) ==> s.tasks[id].name != name
      then Live(s', |s.tasks|) && s'.tasks[|s.tasks|].name == name && !s'.tasks[|s.tasks|].launch.cancelled
           && s'.tasks[..|s.tasks|] == s.tasks
      else s' == s
  {
    RunInv(tr, acts, n);
    OneLiveTask(tr, acts, n, acts[n].name);
    assert Enabled(tr[n], acts[n]) && tr[n + 1] == Next(tr[n], acts[n]);
  }

  /** A task that gives its name up removes its own entry and leaves every other one. */
  lemma DeletesItsOwn(tr: seq<State>, acts: seq<Step>, n: nat)
    requires Run(tr, acts) && n < |acts| && acts[n].Of? && GivesUpName(acts[n].e)
    ensures var s, name := tr[n], tr[n].tasks[acts[n].id].name;
      && name in s.reg && s.reg[name] == acts[n].id
      && tr[n + 1].reg.Keys == s.reg.Keys - {name}
      && forall other :: other in tr[n + 1].reg ==> tr[n + 1].reg[other] == s.reg[other]
  {
    RunInv(tr, acts, n);
    assert Enabled(tr[n], acts[n]);
    assert Live(tr[n], acts[n].id);
  }

  /** A stop cancels the task it looked up and touches no other; in particular no run of the
      same name requested after the look-up. */
  lemma StopHitsItsTask(tr: seq<State>, acts: seq<Step>, n: nat)
    requires Run(tr, acts) && n < |acts| && acts[n].StopCancels?
    ensures var stop := tr[n].stops[acts[n].k];
      && stop.id < stop.born
      && (var t := tr[n].tasks[stop.id]; tr[n + 1].tasks[stop.id] == t.(launch := t.launch.(cancelled := true)))
      && |tr[n + 1].tasks| == |tr[n].tasks|
      && forall i :: 0 <= i < |tr[n].tasks| && (i >= stop.born || i != stop.id) ==> tr[n + 1].tasks[i] == tr[n].tasks[i]
  {
    RunInv(tr, acts, n);
  }

  /** Stop-all cancels every live task but the compositors'. */
  lemma StopAllSparesCompositors(tr: seq<State>, acts: seq<Step>, n: nat, i: nat)
    requires Run(tr, acts) && n < |acts| && acts[n] == StopAll && i < |tr[n].tasks|
    ensures i < |tr[n + 1].tasks|
    ensures var t, t' := tr[n].tasks[i], tr[n + 1].tasks[i];
      if IsLive(t) && t.name != "manageCompositors" then t' == t.(launch := t.launch.(cancelled := true)) else t' == t
  {
    RunInv(tr, acts, n);
    assert Live(tr[n], i) <==> IsLive(tr[n].tasks[i]);
  }

  // ---- what the launches promise the registry ---------------------------------------

  lemma OverMeansCancelled(s: L.State)
    requires L.Reachable(s) && Over(s)
    ensures s.cancelled
  {
    var tr, acts :| L.Run(tr, acts) && tr[|acts|] == s;
    Theorems.ReturnsOnlyWhenCancelled(tr, acts, |acts|);
  }

  /** Finish is only answered for a cancelled context. A task only gives its entry up with its
      context cancelled, so a blocking run whose task has ended is never left waiting: it has
      its answer or can take it now. */
  lemma BlockingRunsReturn(tr: seq<State>, acts: seq<Step>, n: nat, i: nat)
    requires Run(tr, acts) && n < |tr| && i < |tr[n].tasks|
    ensures var t := tr[n].tasks[i];
      && (t.answer == Finish ==> t.launch.cancelled)
      && (t.phase == Ended ==> t.launch.cancelled)
      && (t.blocking && !IsLive(t) && t.answer == Pending ==> Enabled(tr[n], Of(i, Answers)))
  {
    RunInv(tr, acts, n);
    if tr[n].tasks[i].phase == Ended { OverMeansCancelled(tr[n].tasks[i].launch); }
  }

  /** A handler of this task holds a connection to its node. */
  predicate HoldsConnection(t: Task) {
    exists k :: 0 <= k < |t.launch.ts| && t.launch.ts[k].m.h != L.HConnecting && t.launch.ts[k].m.h != L.HClosed
  }

  lemma OverMeansClosed(s: L.State)
    requires L.Reachable(s) && Over(s)
    ensures forall k :: 0 <= k < |s.ts| ==> s.ts[k].m.h == L.HConnecting || s.ts[k].m.h == L.HClosed
  {
    var tr, acts :| L.Run(tr, acts) && tr[|acts|] == s;
    if s.dispatch == L.Returned {
      Teardown.ReturnedMeansClosed(tr, acts, |acts|);
    } else {
      Theorems.UnspawnedIsFresh(tr, acts, |acts|);
    }
  }

  /** Two runs of one name never talk to nodes at the same time: the earlier one has closed
      all its connections before the name is free. */
  lemma OneConnectedTask(tr: seq<State>, acts: seq<Step>, n: nat, i: nat, j: nat)
    requires Run(tr, acts) && n < |tr| && i < |tr[n].tasks| && j < |tr[n].tasks|
    requires tr[n].tasks[i].name == tr[n].tasks[j].name
    requires HoldsConnection(tr[n].tasks[i]) && HoldsConnection(tr[n].tasks[j])
    ensures i == j
  {
    RunInv(tr, acts, n);
    forall k: nat | k < |tr[n].tasks| && HoldsConnection(tr[n].tasks[k]) ensures Live(tr[n], k) {
      var t := tr[n].tasks[k];
      if t.phase == Ended { OverMeansClosed(t.launch); }
    }
    assert Live(tr[n], i) && Live(tr[n], j);
  }

  /** A stopped task frees its name: once nothing of its launch but healthy heartbeats can
      happen, it can end or has ended, exactly when no goroutine of the manager is parked. */
  lemma StoppedTaskEnds(tr: seq<State>, acts: seq<Step>, n: nat, i: nat)
    requires Run(tr, acts) && OnTime(tr, acts) && n < |tr| && i < |tr[n].tasks|
    requires var t := tr[n].tasks[i];
      (t.phase == Dispatched || t.phase == Ended) && t.launch.cancelled && Teardown.Settled(t.launch)
    ensures var t := tr[n].tasks[i];
      t.phase == Ended || Enabled(tr[n], Of(i, Ends)) <==>
        !Teardown.BarrierParked(t.launch)
        && forall k :: 0 <= k < |t.launch.ts| ==> !Teardown.Parked(t.launch.ts[k])
  {
    RunInv(tr, acts, n);
    RunOnTime(tr, acts, n);
    var launch := tr[n].tasks[i].launch;
    var ltr, lacts :| L.Run(ltr, lacts) && L.OnTime(ltr, lacts) && ltr[|lacts|] == launch;
    Teardown.TeardownReachesEveryone(ltr, lacts, |lacts|);
  }
}
