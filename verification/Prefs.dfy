/**
 * The preference mirrors (feed sort, dock tab): a value held in memory per account slot, loaded
 * from storage across one await or, with a legacy key to fall back on, two.
 *
 * A step is the code between two awaits. Reads return whatever storage holds; the log records what
 * happened to the mirror.
 */
module Prefs {
  import opened Common

  /** What a read of storage gives: nothing, something unusable, or a stored choice. A rejected read
      is unusable too. */
  datatype Raw<V> = Absent | Unusable | Stored(value: V)

  datatype Mirror<V(==)> = Mirror(slot: Option<string>, loaded: bool, value: V, generation: nat, initial: V)
  {
    function Switched(to: Option<string>): Mirror<V>
    {
      if to == slot then this else Mirror(to, false, initial, generation + 1, initial)
    }

    function Chosen(v: V): Mirror<V> { if v == value then this else this.(value := v, generation := generation + 1) }

    /** The legacy key is only tried under a slot with a nonempty name. */
    predicate Slotted() { slot.Some? && slot.value != "" }

    predicate Accepts(gen: nat, raw: Raw<V>) { gen == generation && raw.Stored? }

    function Landed(gen: nat, raw: Raw<V>): Mirror<V> { if Accepts(gen, raw) then this.(value := raw.value) else this }
  }

  class PrefsModule<V(==)> {
    var slot: Option<string>
    var loaded: bool
    var value: V
    var generation: nat
    const initial: V

    constructor (initial: V)
      ensures View() == Mirror(None, false, initial, 0, initial)
    {
      this.initial, slot, loaded, value, generation := initial, None, false, initial, 0;
    }

    function View(): Mirror<V>
      reads this
    {
      Mirror(slot, loaded, value, generation, initial)
    }

    /** `ensure…Loaded` up to its first await. */
    method BeginLoad() returns (started: bool, gen: nat)
      modifies this
      ensures started == !old(loaded) && gen == old(generation)
      ensures View() == old(View()).(loaded := true)
    {
      started, gen := !loaded, generation;
      if started { loaded := true; }
    }

    /** After the last await of a load. */
    method FinishLoad(gen: nat, raw: Raw<V>)
      modifies this
      ensures View() == old(View()).Landed(gen, raw)
    {
      if gen != generation { return; }
      if raw.Stored? { value := raw.value; }
    }

    method SetSlot(to: Option<string>)
      modifies this
      ensures View() == old(View()).Switched(to)
    {
      if to == slot { return; }
      slot, loaded, value, generation := to, false, initial, generation + 1;
    }

    method SetValue(v: V)
      modifies this
      ensures View() == old(View()).Chosen(v)
    {
      if v == value { return; }
      value, generation := v, generation + 1;
    }
  }

  // ── Runs ─────────────────────────────────────────────────────────────────────────────────────

  datatype Stage = First | Legacy | Over

  /** A load, its captured generation, and where in the log it began (bookkeeping, as in `LandedAs`). */
  datatype Load = Load(gen: nat, stage: Stage, began: nat)

  datatype Entry<V> =
    | Began(load: nat, slot: Option<string>)
    | SwitchedTo(slot: Option<string>)
    | Moved(value: V)
    | LandedAs(load: nat, value: V, began: nat)

  datatype State<V(==)> = State(mirror: Mirror<V>, loads: seq<Load>, log: seq<Entry<V>>)

  datatype Step<V> = Ensure | Read(load: nat, raw: Raw<V>) | SwitchTo(slot: Option<string>) | Choose(value: V)

  function Start<V(==)>(initial: V): State<V> { State(Mirror(None, false, initial, 0, initial), [], []) }

  function Move<V(==)>(s: State<V>, m: Mirror<V>, e: Entry<V>): State<V>
  {
    if m == s.mirror then s else s.(mirror := m, log := s.log + [e])
  }

  function Begin<V(==)>(s: State<V>): State<V>
  {
    if s.mirror.loaded then s
    else State(s.mirror.(loaded := true), s.loads + [Load(s.mirror.generation, First, |s.log|)],
               s.log + [Began(|s.loads|, s.mirror.slot)])
  }

  function Land<V(==)>(s: State<V>, i: nat, raw: Raw<V>): State<V>
    requires i < |s.loads|
  {
    var t := s.(loads := s.loads[i := s.loads[i].(stage := Over)], mirror := s.mirror.Landed(s.loads[i].gen, raw));
    if s.mirror.Accepts(s.loads[i].gen, raw) then t.(log := s.log + [LandedAs(i, raw.value, s.loads[i].began)]) else t
  }

  /** `legacy`: the module has a second key to fall back on. */
  function Next<V(==)>(s: State<V>, legacy: bool, step: Step<V>): State<V>
  {
    match step
    case Ensure => Begin(s)
    case Read(i, raw) =>
      if i >= |s.loads| || s.loads[i].stage == Over then s
      else if s.loads[i].stage == First && raw == Absent && legacy && s.mirror.Slotted()
      then s.(loads := s.loads[i := s.loads[i].(stage := Legacy)])
      else Land(s, i, raw)
    case SwitchTo(to) => Move(s, s.mirror.Switched(to), SwitchedTo(to))
    case Choose(v) => Move(s, s.mirror.Chosen(v), Moved(v))
  }

  function RunFrom<V(==)>(s: State<V>, legacy: bool, steps: seq<Step<V>>): State<V>
    decreases |steps|
  {
    if steps == [] then s else RunFrom(Next(s, legacy, steps[0]), legacy, steps[1..])
  }

  // ── Stale loads never land ───────────────────────────────────────────────────────────────────

  predicate Bump<V>(e: Entry<V>) { e.SwitchedTo? || e.Moved? }

  function Bumps<V>(log: seq<Entry<V>>): nat
  {
    if log == [] then 0 else Bumps(log[..|log| - 1]) + if Bump(log[|log| - 1]) then 1 else 0
  }

  /** A landing belongs to a load that began earlier with no switch and no live change since. */
  ghost predicate Fresh<V>(log: seq<Entry<V>>, j: nat)
    requires j < |log|
  {
    log[j].LandedAs? ==>
      var b := log[j].began;
      b < j && log[b].Began? && log[b].load == log[j].load && forall k :: b <= k < j ==> !Bump(log[k])
  }

  /** The log holds the beginning of the load, and its generation counts what came before. */
  ghost predicate Recorded<V>(log: seq<Entry<V>>, l: Load, i: nat)
  {
    && l.began < |log| && log[l.began].Began? && log[l.began].load == i
    && l.gen == Bumps(log[..l.began])
  }

  ghost predicate AllRecorded<V>(log: seq<Entry<V>>, loads: seq<Load>)
  {
    forall i :: 0 <= i < |loads| ==> Recorded(log, loads[i], i)
  }

  ghost predicate AllFresh<V>(log: seq<Entry<V>>) { forall j :: 0 <= j < |log| ==> Fresh(log, j) }

  ghost predicate Inv<V>(s: State<V>)
  {
    && s.mirror.generation == Bumps(s.log)
    && AllRecorded(s.log, s.loads)
    && AllFresh(s.log)
  }

  lemma {:induction false} BumpsAppend<V>(log: seq<Entry<V>>, e: Entry<V>)
    ensures Bumps(log + [e]) == Bumps(log) + if Bump(e) then 1 else 0
    ensures forall n :: 0 <= n <= |log| ==> (log + [e])[..n] == log[..n]
  {
    assert (log + [e])[..|log|] == log;
  }

  /** Equal counts mean nothing was counted in between. */
  lemma {:induction false} Unbumped<V>(log: seq<Entry<V>>, b: nat)
    requires b <= |log|
    ensures Bumps(log[..b]) <= Bumps(log)
    ensures Bumps(log[..b]) == Bumps(log) ==> forall k :: b <= k < |log| ==> !Bump(log[k])
  {
    if b == |log| {
      assert log[..b] == log;
    } else {
      var init := log[..|log| - 1];
      Unbumped(init, b);
      assert init[..b] == log[..b];
      assert forall k :: b <= k < |init| ==> init[k] == log[k];
    }
  }

  lemma {:induction false} StaysFresh<V>(log: seq<Entry<V>>, e: Entry<V>, j: nat)
    requires j < |log| && Fresh(log, j)
    ensures Fresh(log + [e], j)
  {
    assert forall k :: 0 <= k <= j ==> (log + [e])[k] == log[k];
  }

  /** An entry that is no landing, or one that is fresh, may be appended. */
  lemma {:induction false} LogKeeps<V>(s: State<V>, e: Entry<V>)
    requires Inv(s)
    requires e.LandedAs? ==>
      e.load < |s.loads| && s.loads[e.load].gen == s.mirror.generation && s.loads[e.load].began == e.began
    ensures var t := s.log + [e];
      && Bumps(t) == Bumps(s.log) + (if Bump(e) then 1 else 0)
      && AllRecorded(t, s.loads)
      && AllFresh(t)
  {
    var t := s.log + [e];
    BumpsAppend(s.log, e);
    forall j | 0 <= j < |t|
      ensures Fresh(t, j)
    {
      if j < |s.log| {
        StaysFresh(s.log, e, j);
      } else if e.LandedAs? {
        assert Recorded(s.log, s.loads[e.load], e.load);
        Unbumped(s.log, e.began);
        assert forall k :: 0 <= k < j ==> t[k] == s.log[k];
      }
    }
  }

  lemma {:induction false} MoveKeeps<V>(s: State<V>, m: Mirror<V>, e: Entry<V>)
    requires Inv(s) && Bump(e) && (m == s.mirror || m.generation == s.mirror.generation + 1)
    ensures Inv(Move(s, m, e))
  {
    LogKeeps(s, e);
  }

  lemma {:induction false} LandKeeps<V>(s: State<V>, i: nat, raw: Raw<V>)
    requires Inv(s) && i < |s.loads|
    ensures Inv(Land(s, i, raw))
  {
    if s.mirror.Accepts(s.loads[i].gen, raw) { LogKeeps(s, LandedAs(i, raw.value, s.loads[i].began)); }
  }

  lemma {:induction false} BeginKeeps<V>(s: State<V>)
    requires Inv(s)
    ensures Inv(Begin(s))
  {
    if !s.mirror.loaded {
      BegunFresh(s);
      BegunRecorded(s);
    }
  }

  lemma {:induction false} BegunFresh<V>(s: State<V>)
    requires Inv(s) && !s.mirror.loaded
    ensures Begin(s).mirror.generation == Bumps(Begin(s).log) && AllFresh(Begin(s).log)
  {
    LogKeeps(s, Began(|s.loads|, s.mirror.slot));
  }

  lemma {:induction false} BegunRecorded<V>(s: State<V>)
    requires Inv(s) && !s.mirror.loaded
    ensures AllRecorded(Begin(s).log, Begin(s).loads)
  {
    var e: Entry<V> := Began(|s.loads|, s.mirror.slot);
    LogKeeps(s, e);
    NewlyRecorded(s.log, s.mirror.slot, |s.loads|);
    RecordedToo(s.log + [e], s.loads, Load(s.mirror.generation, First, |s.log|));
  }

  lemma {:induction false} RecordedToo<V>(log: seq<Entry<V>>, loads: seq<Load>, l: Load)
    requires AllRecorded(log, loads) && Recorded(log, l, |loads|)
    ensures AllRecorded(log, loads + [l])
  {
  }

  lemma {:induction false} NewlyRecorded<V>(log: seq<Entry<V>>, slot: Option<string>, i: nat)
    ensures var e: Entry<V> := Began(i, slot); Recorded(log + [e], Load(Bumps(log), First, |log|), i)
  {
    var e: Entry<V> := Began(i, slot);
    assert (log + [e])[..|log|] == log;
  }

  lemma {:induction false} StepKeeps<V>(s: State<V>, legacy: bool, step: Step<V>)
    requires Inv(s)
    ensures Inv(Next(s, legacy, step))
  {
    match step
    case Ensure => BeginKeeps(s);
    case Read(i, raw) => if i < |s.loads| { LandKeeps(s, i, raw); }
    case SwitchTo(to) => MoveKeeps(s, s.mirror.Switched(to), SwitchedTo(to));
    case Choose(v) => MoveKeeps(s, s.mirror.Chosen(v), Moved(v));
  }

  lemma {:induction false} RunKeeps<V>(s: State<V>, legacy: bool, steps: seq<Step<V>>)
    requires Inv(s)
    ensures Inv(RunFrom(s, legacy, steps))
    decreases |steps|
  {
    if steps != [] {
      StepKeeps(s, legacy, steps[0]);
      RunKeeps(Next(s, legacy, steps[0]), legacy, steps[1..]);
    }
  }

  /** In every interleaving, across both awaits, a load lands only if no slot switch and no live
      change that moved the mirror came after it began. */
  lemma {:induction false} StaleLoadsNeverLand<V>(initial: V, legacy: bool, steps: seq<Step<V>>, j: nat)
    requires j < |RunFrom(Start(initial), legacy, steps).log|
    ensures Fresh(RunFrom(Start(initial), legacy, steps).log, j)
  {
    RunKeeps(Start(initial), legacy, steps);
  }

  /** The slot under which a landing happens is the one its load began under. */
  ghost predicate SlotInv<V>(s: State<V>)
  {
    forall i :: 0 <= i < |s.loads| && s.loads[i].gen == s.mirror.generation ==>
      s.loads[i].began < |s.log| && s.log[s.loads[i].began] == Began(i, s.mirror.slot)
  }

  lemma {:induction false} SlotKeeps<V>(s: State<V>, legacy: bool, step: Step<V>)
    requires SlotInv(s) && forall i :: 0 <= i < |s.loads| ==> s.loads[i].gen <= s.mirror.generation
    ensures var t := Next(s, legacy, step);
      SlotInv(t) && forall i :: 0 <= i < |t.loads| ==> t.loads[i].gen <= t.mirror.generation
  {
  }

  lemma {:induction false} SlotRun<V>(s: State<V>, legacy: bool, steps: seq<Step<V>>)
    requires SlotInv(s) && forall i :: 0 <= i < |s.loads| ==> s.loads[i].gen <= s.mirror.generation
    ensures SlotInv(RunFrom(s, legacy, steps))
    decreases |steps|
  {
    if steps != [] {
      SlotKeeps(s, legacy, steps[0]);
      SlotRun(Next(s, legacy, steps[0]), legacy, steps[1..]);
    }
  }

  /** A load that can still land began under the slot that is active now. */
  lemma {:induction false} LoadsStayInTheirSlot<V>(initial: V, legacy: bool, steps: seq<Step<V>>)
    ensures SlotInv(RunFrom(Start(initial), legacy, steps))
  {
    SlotRun(Start(initial), legacy, steps);
  }

  /** What the log says the mirror holds: the last choice or landing since the last switch. */
  function Told<V>(log: seq<Entry<V>>, initial: V): V
  {
    if log == [] then initial
    else
      match log[|log| - 1]
      case Began(_, _) => Told(log[..|log| - 1], initial)
      case SwitchedTo(_) => initial
      case Moved(v) => v
      case LandedAs(_, v, _) => v
  }

  lemma {:induction false} ToldMore<V>(log: seq<Entry<V>>, e: Entry<V>, initial: V)
    ensures Told(log + [e], initial) ==
      match e
      case Began(_, _) => Told(log, initial)
      case SwitchedTo(_) => initial
      case Moved(v) => v
      case LandedAs(_, v, _) => v
  {
    assert (log + [e])[..|log|] == log;
  }

  ghost predicate Tells<V>(s: State<V>) { s.mirror.value == Told(s.log, s.mirror.initial) }

  lemma {:induction false} StepTells<V>(s: State<V>, legacy: bool, step: Step<V>)
    requires Tells(s)
    ensures Tells(Next(s, legacy, step)) && Next(s, legacy, step).mirror.initial == s.mirror.initial
  {
    match step
    case Ensure => ToldMore(s.log, Began(|s.loads|, s.mirror.slot), s.mirror.initial);
    case Read(i, raw) =>
      if i < |s.loads| && raw.Stored? {
        ToldMore(s.log, LandedAs(i, raw.value, s.loads[i].began), s.mirror.initial);
      }
    case SwitchTo(to) => ToldMore(s.log, SwitchedTo(to), s.mirror.initial);
    case Choose(v) => ToldMore(s.log, Moved(v), s.mirror.initial);
  }

  /** In every run the mirror holds what the log says: nothing reaches it unrecorded. */
  lemma {:induction false} LogTellsValue<V>(s: State<V>, legacy: bool, steps: seq<Step<V>>)
    requires Tells(s)
    ensures Tells(RunFrom(s, legacy, steps)) && RunFrom(s, legacy, steps).mirror.initial == s.mirror.initial
    decreases |steps|
  {
    if steps != [] {
      StepTells(s, legacy, steps[0]);
      LogTellsValue(Next(s, legacy, steps[0]), legacy, steps[1..]);
    }
  }

  /** Switching to another slot forgets the value and lets the next access load again; no load that is
      in flight then can ever touch the value under the new slot. */
  lemma {:induction false} SwitchResets<V>(
    initial: V, legacy: bool, steps: seq<Step<V>>, to: Option<string>, i: nat, raw: Raw<V>)
    requires var s := RunFrom(Start(initial), legacy, steps); to != s.mirror.slot && i < |s.loads|
    ensures var s := RunFrom(Start(initial), legacy, steps); var t := Next(s, legacy, SwitchTo(to));
      && t.mirror.slot == to && t.mirror.value == initial && !t.mirror.loaded
      && Next(t, legacy, Read(i, raw)).mirror == t.mirror
      && |Next(t, legacy, Ensure).loads| == |s.loads| + 1
  {
    RunKeeps(Start(initial), legacy, steps);
    LogTellsValue(Start(initial), legacy, steps);
    var s := RunFrom(Start(initial), legacy, steps);
    assert Recorded(s.log, s.loads[i], i);
    Unbumped(s.log, s.loads[i].began);
  }

  /** A choice is the value from then on. */
  lemma {:induction false} ChoiceTakes<V>(s: State<V>, legacy: bool, v: V)
    ensures var t := Next(s, legacy, Choose(v)); t.mirror.value == v && t.mirror.slot == s.mirror.slot
  {
    assert s.mirror.Chosen(v).value == v;
  }

  /** The first load of an untouched mirror takes what is stored: under its own key, or, only where
      there is none and a slot is set, under the legacy key. */
  lemma {:induction false} LoadTakes<V>(s: State<V>, legacy: bool, first: Raw<V>, second: Raw<V>)
    requires !s.mirror.loaded
    ensures var i, slotted := |s.loads|, s.mirror.slot.Some? && s.mirror.slot.value != "";
      var t := Next(Next(Next(s, legacy, Ensure), legacy, Read(i, first)), legacy, Read(i, second));
      var found := if first == Absent && legacy && slotted then second else first;
      t.mirror == s.mirror.(loaded := true, value := if found.Stored? then found.value else s.mirror.value)
  {
    var i := |s.loads|;
    var b := Next(s, legacy, Ensure);
    assert b.loads[i] == Load(s.mirror.generation, First, |s.log|);
    var c := Next(b, legacy, Read(i, first));
    if first == Absent && legacy && s.mirror.Slotted() {
      assert c.mirror == b.mirror && c.loads[i] == b.loads[i].(stage := Legacy);
    } else {
      assert c.loads[i].stage == Over;
    }
  }

  /** A live choice survives a load in flight if and only if it moved the mirror: choosing the value
      already held leaves the load free to replace it. */
  lemma {:induction false} ChoiceSurvivesIffItMoved<V>(s: State<V>, legacy: bool, v: V, i: nat, w: V)
    requires i < |s.loads| && s.loads[i].stage != Over && s.loads[i].gen == s.mirror.generation && w != v
    ensures var t := Next(Next(s, legacy, Choose(v)), legacy, Read(i, Stored(w)));
      t.mirror.value == v <==> v != s.mirror.value
  {
  }

  /** And so it goes from the start: the first load replaces a choice of the value the mirror began
      with by whatever was stored. */
  lemma {:induction false} HeldChoiceReplaced<V>(initial: V, legacy: bool, w: V)
    ensures RunFrom(Start(initial), legacy, [Ensure, Choose(initial), Read(0, Stored(w))]).mirror.value == w
  {
    var begun := Begin(Start(initial));
    var read: seq<Step<V>> := [Read(0, Stored(w))];
    assert Next(begun, legacy, Choose(initial)) == begun;
    assert RunFrom(begun, legacy, read) == RunFrom(Next(begun, legacy, read[0]), legacy, []);
    assert RunFrom(begun, legacy, [Choose(initial)] + read) == RunFrom(begun, legacy, read);
    assert [Ensure, Choose(initial), Read(0, Stored(w))][1..] == [Choose(initial)] + read;
  }
}
