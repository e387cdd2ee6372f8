/**
 * The one-slot buffer for deferred snapshots, and the three ways App applies a snapshot.
 *
 * Snapshots carry their version: each one handed in is fresher than all before it. The scheduler is
 * asynchronous, as `runAfterInteractions` is: it returns a handle before it ever runs the callback,
 * and never runs one that was cancelled.
 */
module SnapshotSlot {
  import opened Common

  /** `live`: scheduled callbacks that can still fire; `next`: the next handle. */
  datatype Slot<T> = Slot(pending: Option<T>, handle: Option<nat>, live: set<nat>, next: nat)
  {
    function Deferred(v: T): Slot<T>
    {
      var s := this.(pending := Some(v));
      if handle.Some? then s else s.(handle := Some(next), live := live + {next}, next := next + 1)
    }

    function Cancelled(): Slot<T>
    {
      Slot(None, None, if handle.Some? then live - {handle.value} else live, next)
    }

    function Flushed(id: nat): Slot<T> { Slot(None, None, live - {id}, next) }
  }

  class DeferredSlot<T> {
    var has: bool
    var value: Option<T>
    var handle: Option<nat>
    var live: set<nat>
    var next: nat

    function View(): Slot<T>
      reads this
    {
      Slot(if has then value else None, handle, live, next)
    }

    constructor ()
      ensures View() == Slot(None, None, {}, 0)
    {
      has, value, handle, live, next := false, None, None, {}, 0;
    }

    method Defer(v: T)
      modifies this
      ensures View() == old(View()).Deferred(v)
    {
      has, value := true, Some(v);
      if handle.None? {
        handle, live, next := Some(next), live + {next}, next + 1;
      }
    }

    method Cancel()
      modifies this
      ensures View() == old(View()).Cancelled()
    {
      has, value := false, None;
      if handle.Some? {
        live := live - {handle.value};
        handle := None;
      }
    }

    /** The scheduled callback; what it returns is applied. */
    method Flush(id: nat) returns (applied: Option<T>)
      requires id in live
      modifies this
      ensures View() == old(View()).Flushed(id)
      ensures applied == old(View()).pending
    {
      live := live - {id};
      handle := None;
      if !has { return None; }
      applied := value;
      has, value := false, None;
    }
  }

  // ── App's three routes ───────────────────────────────────────────────────────────────────────

  /** `shown` is on screen; `newest` was handed in last. */
  datatype State = State(slot: Slot<nat>, shown: nat, newest: nat)

  const INIT := State(Slot(None, None, {}, 0), 0, 0)

  datatype Step = Emit(urgent: bool) | MarkSeen(moved: bool) | Fire(id: nat)

  /** Cancel what is queued, then apply a fresh snapshot at once. */
  function Supersede(s: State): State { State(s.slot.Cancelled(), s.newest + 1, s.newest + 1) }

  function Next(s: State, step: Step): State
  {
    match step
    case Emit(urgent) =>
      if urgent then Supersede(s) else s.(slot := s.slot.Deferred(s.newest + 1), newest := s.newest + 1)
    case MarkSeen(moved) => if moved then Supersede(s) else s
    case Fire(id) =>
      if id !in s.slot.live then s
      else s.(slot := s.slot.Flushed(id), shown := if s.slot.pending.Some? then s.slot.pending.value else s.shown)
  }

  function RunFrom(s: State, steps: seq<Step>): State
    decreases |steps|
  {
    if steps == [] then s else RunFrom(Next(s, steps[0]), steps[1..])
  }

  function Run(steps: seq<Step>): State { RunFrom(INIT, steps) }

  ghost predicate Inv(s: State)
  {
    && s.slot.live == (match s.slot.handle case None => {} case Some(h) => {h})
    && (s.slot.handle.Some? <==> s.slot.pending.Some?)
    && (match s.slot.pending case None => s.shown == s.newest case Some(v) => v == s.newest && s.shown < v)
  }

  lemma {:induction false} StepKeeps(s: State, step: Step)
    requires Inv(s)
    ensures Inv(Next(s, step))
    ensures Next(s, step).shown >= s.shown
  {
  }

  lemma {:induction false} RunKeeps(s: State, steps: seq<Step>)
    requires Inv(s)
    ensures Inv(RunFrom(s, steps)) && RunFrom(s, steps).shown >= s.shown
    decreases |steps|
  {
    if steps != [] {
      StepKeeps(s, steps[0]);
      RunKeeps(Next(s, steps[0]), steps[1..]);
    }
  }

  /** In every interleaving at most one callback can still fire, and if nothing is queued what is
      shown is the newest snapshot; if something is, it is the newest, so a firing shows it. */
  lemma {:induction false} NewestOrQueued(steps: seq<Step>)
    ensures var s := Run(steps);
      && |s.slot.live| <= 1
      && (s.slot.handle.None? ==> s.slot.live == {} && s.shown == s.newest)
      && (s.slot.handle.Some? ==>
            var h := s.slot.handle.value; s.slot.live == {h} && Next(s, Fire(h)).shown == s.newest)
  {
    RunKeeps(INIT, steps);
  }

  /** An urgent snapshot, or a read mark that moved, is on screen at once and leaves nothing queued; a
      background one waits, and no other step hands in a snapshot. */
  lemma {:induction false} UrgentAtOnce(steps: seq<Step>, step: Step)
    ensures var s, t := Run(steps), Next(Run(steps), step);
      && (step == Emit(true) || step == MarkSeen(true) ==>
            t.newest == s.newest + 1 && t.shown == t.newest && t.slot.live == {})
      && (step == Emit(false) ==> t.newest == s.newest + 1 && t.shown == s.shown && t.slot.live != {})
      && (step == MarkSeen(false) ==> t == s)
      && (step.Fire? ==> t.newest == s.newest)
  {
    RunKeeps(INIT, steps);
    StepKeeps(Run(steps), step);
  }

  lemma {:induction false} HandleSpent(s: State, steps: seq<Step>, id: nat)
    requires id < s.slot.next && id !in s.slot.live
    ensures id !in RunFrom(s, steps).slot.live
    decreases |steps|
  {
    if steps != [] { HandleSpent(Next(s, steps[0]), steps[1..], id); }
  }

  lemma {:induction false} HandlesBelow(s: State, steps: seq<Step>, id: nat)
    requires forall h :: h in s.slot.live ==> h < s.slot.next
    ensures id in RunFrom(s, steps).slot.live ==> id < RunFrom(s, steps).slot.next
    decreases |steps|
  {
    if steps != [] { HandlesBelow(Next(s, steps[0]), steps[1..], id); }
  }

  /** A callback that fired or was superseded never shows anything again, however the run goes on. */
  lemma {:induction false} SpentForGood(steps: seq<Step>, step: Step, more: seq<Step>, id: nat)
    requires id in Run(steps).slot.live && (step == Fire(id) || step == Emit(true) || step == MarkSeen(true))
    ensures var t := RunFrom(Next(Run(steps), step), more); Next(t, Fire(id)) == t
  {
    HandlesBelow(INIT, steps, id);
    RunKeeps(INIT, steps);
    HandleSpent(Next(Run(steps), step), more, id);
  }

  /** The screen never goes back to an older snapshot. */
  lemma {:induction false} NeverBackwards(steps: seq<Step>, more: seq<Step>)
    ensures RunFrom(Run(steps), more).shown >= Run(steps).shown
  {
    RunKeeps(INIT, steps);
    RunKeeps(Run(steps), more);
  }

  // ── Why the scheduler must be asynchronous ───────────────────────────────────────────────────

  /** `defer` over a scheduler that runs the callback before it returns its handle: the flush clears
      the handle first, then the returned one is stored over it. */
  function DeferredAtOnce(s: State): State
  {
    var v := s.newest + 1;
    if s.slot.handle.Some? then s.(slot := s.slot.(pending := Some(v)), newest := v)
    else State(Slot(None, Some(s.slot.next), s.slot.live, s.slot.next + 1), v, v)
  }

  function AtOnce(s: State, n: nat): State
    decreases n
  {
    if n == 0 then s else AtOnce(DeferredAtOnce(s), n - 1)
  }

  lemma {:induction false} Stuck(s: State, n: nat)
    requires s.slot.handle.Some?
    ensures var t := AtOnce(s, n); t.shown == s.shown && t.newest == s.newest + n && t.slot.live == s.slot.live
    decreases n
  {
    if n > 0 { Stuck(DeferredAtOnce(s), n - 1); }
  }

  /** Then, however many are deferred, only the first is shown: its dead handle blocks the rest, and
      no callback is left that could show them. */
  lemma {:induction false} SynchronousSchedulerSticks(s: State, n: nat)
    requires s.slot.handle.None? && s.slot.live == {}
    ensures var t := AtOnce(s, n + 1); t.shown == s.newest + 1 && t.newest == s.newest + n + 1 && t.slot.live == {}
  {
    Stuck(DeferredAtOnce(s), n);
  }
}
