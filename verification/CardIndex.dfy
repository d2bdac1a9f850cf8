/** Reserving a card number in ucl-virtio-gpu-wl-send. */
module CardIndex {
  import opened Basics
  import opened ArgLine

  const CARD_MAX: nat := 65
  const INDEX_FILE := "/tmp/rvgpu-index"

  function DevPath(card: nat): string { "/dev/dri/rvgpu_virtio" + Itoa(card) }

  /** The lowest card below the limit that has no device. */
  predicate LowestFree(taken: nat -> bool, card: nat) {
    card < CARD_MAX && !taken(card) && forall c: nat :: c < card ==> taken(c)
  }

  lemma DevPathExample()
    ensures DevPath(0) == "/dev/dri/rvgpu_virtio0" && DevPath(64) == "/dev/dri/rvgpu_virtio64"
  {
    assert Digits(64) == "64";
  }

  class FileSystem {
    /** Path to contents. */
    var files: map<string, string>

    constructor (files: map<string, string>)
      ensures this.files == files
    {
      this.files := files;
    }

    /** reserveRvgpuIndex; the flags are what the system calls do. The answer is the lowest
        card without a device, written to the index file; -1 when there is none or a call fails. */
    method ReserveRvgpuIndex(removeFails: bool, openFails: bool, writeFails: bool) returns (cardN: int)
      modifies this
      ensures cardN >= 0 ==> var before := old(files);
        && LowestFree((c: nat) => DevPath(c) in before, cardN)
        && cardN < 65 && DevPath(cardN) !in before && (forall c: nat :: c < cardN ==> DevPath(c) in before)
        && files == before["/tmp/rvgpu-index" := Itoa(cardN) + "\n"]
      ensures cardN < 0 ==> cardN == -1 && forall p :: p != INDEX_FILE ==>
                             (p in files <==> p in old(files)) && (p in files ==> files[p] == old(files)[p])
      ensures cardN == -1 <==> (forall c: nat :: c < 65 ==> DevPath(c) in old(files))
                               || openFails || writeFails || (removeFails && INDEX_FILE in old(files))
    {
      var card := 0;
      while card < CARD_MAX
        invariant card <= CARD_MAX && files == old(files)
        invariant forall c: nat :: c < card ==> DevPath(c) in files
      {
        if DevPath(card) !in files {
          if INDEX_FILE in files && !removeFails {
            files := files - {INDEX_FILE};
          }
          // O_CREATE|O_EXCL: an index file that is still there is an error
          if INDEX_FILE in files || openFails {
            return -1;
          }
          files := files[INDEX_FILE := ""];
          if writeFails {
            return -1;
          }
          files := files[INDEX_FILE := Itoa(card) + "\n"];
          return card;
        }
        card := card + 1;
      }
      return -1;
    }
  }
}

/** Any number of senders on one machine, between taking the lock file and ending. */
module CardIndexRuns {
  import opened Basics
  import opened CardIndex

  datatype Device = Virtio | Touch | Mouse | MouseAbs | Keyboard

  /** `Waiting` is waitRvgpuDevices, with the device files found so far; `Running` is past it. */
  datatype Sender = Starting | Locked | Waiting(card: nat, seen: set<Device>) | Running(card: nat) | Ended

  datatype State = State(holder: Option<nat>, devices: set<(Device, nat)>, senders: seq<Sender>)

  datatype Step =
    | Lock(i: nat)                       // flock LOCK_EX
    | Reserve(i: nat, card: nat)
    | See(i: nat, d: Device)
    | Pass(i: nat)                       // all five files found: unlock
    | GiveUp(i: nat)                     // no card, no device, start failure or crash: the lock is released
    | End(i: nat)
    | Appear(d: Device, card: nat) | Vanish(d: Device, card: nat)

  /** What ReserveRvgpuIndex answers on these devices. */
  predicate IsReserved(s: State, card: nat) {
    LowestFree((c: nat) => (Virtio, c) in s.devices, card)
  }

  predicate HoldsLock(x: Sender) { x == Locked || x.Waiting? }

  /** A device file a sender relies on. */
  predicate Uses(x: Sender, d: Device, card: nat) {
    x == Running(card) || (x.Waiting? && x.card == card && d in x.seen)
  }

  ghost predicate Enabled(s: State, st: Step) {
    match st
    case Lock(i) => i < |s.senders| && s.senders[i] == Starting && s.holder.None?
    case Reserve(i, card) => i < |s.senders| && s.senders[i] == Locked && IsReserved(s, card)
    case See(i, d) => i < |s.senders| && s.senders[i].Waiting? && (d, s.senders[i].card) in s.devices
    case Pass(i) => i < |s.senders| && s.senders[i].Waiting?
                    && s.senders[i].seen == {Virtio, Touch, Mouse, MouseAbs, Keyboard}
    case GiveUp(i) => i < |s.senders| && HoldsLock(s.senders[i])
    case End(i) => i < |s.senders| && s.senders[i].Running?
    case Appear(_, _) => true
    // assumed: the devices of a sender that found them stay while it runs
    case Vanish(d, card) => forall i :: 0 <= i < |s.senders| ==> !Uses(s.senders[i], d, card)
  }

  function Next(s: State, st: Step): State
    requires Enabled(s, st)
  {
    match st
    case Lock(i) => s.(holder := Some(i), senders := s.senders[i := Locked])
    case Reserve(i, card) => s.(senders := s.senders[i := Waiting(card, {})])
    case See(i, d) => s.(senders := s.senders[i := s.senders[i].(seen := s.senders[i].seen + {d})])
    case Pass(i) => s.(holder := None, senders := s.senders[i := Running(s.senders[i].card)])
    case GiveUp(i) => s.(holder := None, senders := s.senders[i := Ended])
    case End(i) => s.(senders := s.senders[i := Ended])
    case Appear(d, card) => s.(devices := s.devices + {(d, card)})
    case Vanish(d, card) => s.(devices := s.devices - {(d, card)})
  }

  ghost predicate Run(tr: seq<State>, acts: seq<Step>) {
    && |tr| == |acts| + 1 && tr[0].holder.None?
    && (forall i :: 0 <= i < |tr[0].senders| ==> tr[0].senders[i] == Starting)
    && forall j :: 0 <= j < |acts| ==> Enabled(tr[j], acts[j]) && tr[j + 1] == Next(tr[j], acts[j])
  }

  ghost predicate Inv(s: State) {
    && (forall i :: 0 <= i < |s.senders| ==> (HoldsLock(s.senders[i]) <==> s.holder == Some(i)))
    && (forall i, d :: 0 <= i < |s.senders| && s.senders[i].Running? ==> (d, s.senders[i].card) in s.devices)
    && (forall i, j :: 0 <= i < |s.senders| && 0 <= j < |s.senders| && s.senders[i].Waiting? && s.senders[j].Running? ==>
          s.senders[i].card != s.senders[j].card)
    && (forall i, d :: 0 <= i < |s.senders| && s.senders[i].Waiting? && d in s.senders[i].seen ==>
          (d, s.senders[i].card) in s.devices)
    && (forall i :: 0 <= i < |s.senders| && (s.senders[i].Waiting? || s.senders[i].Running?) ==> s.senders[i].card < CARD_MAX)
    && (forall i, j :: 0 <= i < j < |s.senders| && s.senders[i].Running? && s.senders[j].Running? ==>
          s.senders[i].card != s.senders[j].card)
  }

  lemma AllDevices(seen: set<Device>, d: Device)
    requires seen == {Virtio, Touch, Mouse, MouseAbs, Keyboard}
    ensures d in seen
  {
    match d
    case _ =>
  }

  lemma SenderStepInv(s: State, st: Step)
    requires Inv(s) && Enabled(s, st) && (st.Reserve? || st.See? || st.Pass?)
    ensures Inv(Next(s, st))
  {
    if st.Pass? {
      forall d ensures d in s.senders[st.i].seen { AllDevices(s.senders[st.i].seen, d); }
    }
  }

  lemma OtherStepInv(s: State, st: Step)
    requires Inv(s) && Enabled(s, st) && !(st.Reserve? || st.See? || st.Pass?)
    ensures Inv(Next(s, st))
  {
  }

  lemma StepInv(s: State, st: Step)
    requires Inv(s) && Enabled(s, st)
    ensures Inv(Next(s, st))
  {
    if st.Reserve? || st.See? || st.Pass? { SenderStepInv(s, st); } else { OtherStepInv(s, st); }
  }

  lemma {:induction false} RunInv(tr: seq<State>, acts: seq<Step>, n: nat)
    requires Run(tr, acts) && n < |tr|
    ensures Inv(tr[n])
  {
    if n > 0 {
      RunInv(tr, acts, n - 1);
      StepInv(tr[n - 1], acts[n - 1]);
    }
  }

  /** Two senders past waitRvgpuDevices and still running have different cards below the limit. */
  lemma UniqueCards(tr: seq<State>, acts: seq<Step>, n: nat, i: nat, j: nat)
    requires Run(tr, acts) && n < |tr| && i < |tr[n].senders| && j < |tr[n].senders| && i != j
    requires tr[n].senders[i].Running? && tr[n].senders[j].Running?
    ensures tr[n].senders[i].card != tr[n].senders[j].card
    ensures tr[n].senders[i].card < 65
  {
    RunInv(tr, acts, n);
  }

  /** Nobody gets past waitRvgpuDevices before all five devices of its card are there, and they
      are while it runs. */
  lemma RunningHasAllDevices(tr: seq<State>, acts: seq<Step>, n: nat, i: nat)
    requires Run(tr, acts) && n < |tr| && i < |tr[n].senders| && tr[n].senders[i].Running?
    ensures var card := tr[n].senders[i].card;
      (Virtio, card) in tr[n].devices && (Touch, card) in tr[n].devices && (Mouse, card) in tr[n].devices
      && (MouseAbs, card) in tr[n].devices && (Keyboard, card) in tr[n].devices
  {
    RunInv(tr, acts, n);
  }

  /** One sender at a time is between taking the lock and having found its devices. */
  lemma OneHolder(tr: seq<State>, acts: seq<Step>, n: nat, i: nat, j: nat)
    requires Run(tr, acts) && n < |tr| && i < |tr[n].senders| && j < |tr[n].senders|
    requires HoldsLock(tr[n].senders[i]) && HoldsLock(tr[n].senders[j])
    ensures i == j
  {
    RunInv(tr, acts, n);
  }
}
