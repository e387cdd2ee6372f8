/**
 * The single-flight connect cascade and its re-run requests.
 *
 * JS runs to the next `await` without interruption, so a step is the code between two awaits.
 * Each request ("ask") is numbered; a pass that begins after an ask serves it. Nothing in the
 * state limits how many passes are in flight: that only one can be is proved.
 */
module Cascade {
  // ── The flags, and the code that changes them ────────────────────────────────────────────────

  datatype Flags = Flags(running: bool, rerun: bool, desired: bool, dormant: bool)
  {
    predicate Admits() { !running && desired && !dormant }

    /** Entering `runCascade` up to the first await of its first pass. */
    function Entered(): Flags { this.(running := true, rerun := false) }

    predicate Again() { rerun && desired }

    function Asked(flagged: bool, wants: bool): Flags
    {
      this.(rerun := if flagged then running else rerun, desired := desired || wants)
    }
  }

  class ConnectLoop {
    var cascadeRunning: bool
    var rerunRequested: bool
    var desiredConnected: bool
    var dormant: bool

    function View(): Flags
      reads this
    {
      Flags(cascadeRunning, rerunRequested, desiredConnected, dormant)
    }

    /** `runCascade`: true when this call starts a pass, false when the guard drops it. */
    method Enter() returns (started: bool)
      modifies this
      ensures started == old(View()).Admits()
      ensures View() == if started then old(View()).Entered() else old(View())
    {
      if cascadeRunning || !desiredConnected || dormant { return false; }
      cascadeRunning := true;
      rerunRequested := false;
      return true;
    }

    /** The bottom of the do-while; `finally` clears the guard when it ends. */
    method Loop() returns (again: bool)
      modifies this
      ensures again == old(View()).Again()
      ensures View() == if again then old(View()).(rerun := false) else old(View()).(running := false)
    {
      again := rerunRequested && desiredConnected;
      if again { rerunRequested := false; } else { cascadeRunning := false; }
    }

    /** The synchronous half of a re-run request. */
    method Ask(wants: bool)
      modifies this
      ensures View() == old(View()).Asked(true, wants)
    {
      if wants { desiredConnected := true; }
      rerunRequested := cascadeRunning;
    }
  }

  // ── Runs ─────────────────────────────────────────────────────────────────────────────────────

  /** A pass is connecting, dropping the connection it made under old preferences, or over. */
  datatype Pass = Passing | Dropping | Ended

  /** `pending`: asks whose own `runCascade` call still waits for its disconnect. An ask is waiting,
      served, or excused: no connection was wanted, the app slept, or the pass threw. */
  datatype State = State(
    flags: Flags, passes: seq<Pass>, asked: nat, pending: set<nat>,
    waiting: set<nat>, served: set<nat>, excused: set<nat>)

  const INIT := State(Flags(false, false, true, false), [], 0, {}, {}, {}, {})

  datatype Step =
    | Trigger
    | Ask(flagged: bool, wants: bool)
    | Land(ask: nat)
    | Reject(ask: nat)
    | PassEnds(pass: nat, connected: bool)
    | DropEnds(pass: nat)
    | Throw(pass: nat)
    | Want(on: bool)
    | Sleep(on: bool)

  function Serve(s: State): State { s.(waiting := {}, served := s.served + s.waiting) }

  function Excuse(s: State): State { s.(waiting := {}, excused := s.excused + s.waiting) }

  function Enter(s: State): State
  {
    if s.flags.Admits() then Serve(s).(flags := s.flags.Entered(), passes := s.passes + [Passing]) else s
  }

  function Asking(s: State, flagged: bool, wants: bool): State
  {
    var f := s.flags.Asked(flagged, wants);
    var t := s.(flags := f, asked := s.asked + 1, pending := s.pending + {s.asked});
    if f.desired && !f.dormant then t.(waiting := s.waiting + {s.asked}) else t.(excused := s.excused + {s.asked})
  }

  /** The call of a request whose disconnect rejected is never made. */
  function Rejected(s: State, r: nat): State
  {
    var t := s.(pending := s.pending - {r});
    if r in s.waiting && !s.flags.running then t.(waiting := s.waiting - {r}, excused := s.excused + {r}) else t
  }

  function Leave(s: State, i: nat): State
    requires i < |s.passes|
  {
    s.(flags := s.flags.(running := false), passes := s.passes[i := Ended])
  }

  function LoopTest(s: State, i: nat): State
    requires i < |s.passes|
  {
    if s.flags.Again() then Serve(s).(flags := s.flags.(rerun := false), passes := s.passes[i := Passing])
    else Leave(s, i)
  }

  function PassStep(s: State, step: Step): State
  {
    match step
    case PassEnds(i, connected) =>
      if i >= |s.passes| || s.passes[i] != Passing then s
      else if s.flags.Again() && connected then s.(passes := s.passes[i := Dropping])
      else LoopTest(s, i)
    case DropEnds(i) => if i < |s.passes| && s.passes[i] == Dropping then LoopTest(s, i) else s
    case Throw(i) => if i < |s.passes| && s.passes[i] != Ended then Excuse(Leave(s, i)) else s
    case _ => s
  }

  function Next(s: State, step: Step): State
  {
    match step
    case Trigger => Enter(s)
    case Ask(flagged, wants) => Asking(s, flagged, wants)
    case Land(r) => if r in s.pending then Enter(s.(pending := s.pending - {r})) else s
    case Reject(r) => if r in s.pending then Rejected(s, r) else s
    case Want(on) => var t := s.(flags := s.flags.(desired := on)); if on then t else Excuse(t)
    case Sleep(on) => var t := s.(flags := s.flags.(dormant := on)); if on then Excuse(t) else t
    case _ => PassStep(s, step)
  }

  function RunFrom(s: State, steps: seq<Step>): State
    decreases |steps|
  {
    if steps == [] then s else RunFrom(Next(s, steps[0]), steps[1..])
  }

  function Run(steps: seq<Step>): State { RunFrom(INIT, steps) }

  // ── The invariant ────────────────────────────────────────────────────────────────────────────

  ghost predicate InFlight(s: State, i: int) { 0 <= i < |s.passes| && s.passes[i] != Ended }

  ghost predicate SingleFlight(s: State)
  {
    && (forall i, j :: InFlight(s, i) && InFlight(s, j) ==> i == j)
    && (s.flags.running <==> exists i :: InFlight(s, i))
  }

  /** Where a waiting ask is kept. */
  ghost predicate Remembered(s: State, r: nat)
  {
    if s.flags.running then s.flags.rerun else r in s.pending
  }

  /** In how many of the three places an ask is. */
  function Places(s: State, r: nat): nat
  {
    (if r in s.waiting then 1 else 0) + (if r in s.served then 1 else 0) + (if r in s.excused then 1 else 0)
  }

  ghost predicate Ledger(s: State)
  {
    && (forall r: nat :: Places(s, r) == if r < s.asked then 1 else 0)
    && (forall r :: r in s.pending ==> r < s.asked)
  }

  /** What holds in every run, whatever the requesters do. */
  ghost predicate Inv(s: State)
  {
    SingleFlight(s) && Ledger(s) && (s.waiting != {} ==> s.flags.desired && !s.flags.dormant)
  }

  /** One request has not been forgotten. */
  ghost predicate Kept(s: State, r: nat) { r in s.waiting ==> Remembered(s, r) }

  /** A request that leaves the flag alone is safe only here: no pass is in flight, or an earlier
      request already asked it to run again. One that sets the flag always is. */
  predicate Safe(s: State, ask: Step)
    requires ask.Ask?
  {
    ask.flagged || !s.flags.running || s.flags.rerun
  }

  // ── Every step keeps it ──────────────────────────────────────────────────────────────────────

  lemma {:induction false} EnterFlight(s: State)
    requires SingleFlight(s)
    ensures SingleFlight(Enter(s))
  {
    if s.flags.Admits() {
      var t := Enter(s);
      assert InFlight(t, |s.passes|);
      assert forall i :: InFlight(t, i) && i != |s.passes| ==> InFlight(s, i);
    }
  }

  lemma {:induction false} MoveFlight(s: State, i: nat, p: Pass)
    requires SingleFlight(s) && InFlight(s, i)
    ensures SingleFlight(s.(passes := s.passes[i := p], flags := s.flags.(running := p != Ended)))
  {
    var t := s.(passes := s.passes[i := p], flags := s.flags.(running := p != Ended));
    assert forall j :: InFlight(t, j) ==> InFlight(s, j);
    assert p != Ended ==> InFlight(t, i);
  }

  lemma {:induction false} SameFlight(s: State, t: State)
    requires SingleFlight(s) && t.passes == s.passes && t.flags.running == s.flags.running
    ensures SingleFlight(t)
  {
    assert forall i :: InFlight(t, i) == InFlight(s, i);
  }

  lemma {:induction false} StepFlight(s: State, step: Step)
    requires SingleFlight(s)
    ensures SingleFlight(Next(s, step))
  {
    match step
    case Trigger => EnterFlight(s);
    case Land(r) =>
      SameFlight(s, s.(pending := s.pending - {r}));
      EnterFlight(s.(pending := s.pending - {r}));
    case PassEnds(i, connected) => if InFlight(s, i) { PassFlight(s, step); }
    case DropEnds(i) => if InFlight(s, i) { PassFlight(s, step); }
    case Throw(i) => if InFlight(s, i) { PassFlight(s, step); }
    case _ => SameFlight(s, Next(s, step));
  }

  lemma {:induction false} PassFlight(s: State, step: Step)
    requires SingleFlight(s) && (step.PassEnds? || step.DropEnds? || step.Throw?) && InFlight(s, step.pass)
    ensures SingleFlight(PassStep(s, step))
  {
    var t := PassStep(s, step);
    if t != s {
      var p := t.passes[step.pass];
      MoveFlight(s, step.pass, p);
      SameFlight(s.(passes := s.passes[step.pass := p], flags := s.flags.(running := p != Ended)), t);
    }
  }

  lemma {:induction false} StepLedger(s: State, step: Step)
    requires Ledger(s)
    ensures Ledger(Next(s, step))
  {
    var t := Next(s, step);
    forall r: nat
      ensures Places(t, r) == if r < t.asked then 1 else 0
    {
      assert Places(s, r) == if r < s.asked then 1 else 0;
    }
  }

  lemma {:induction false} StepInv(s: State, step: Step)
    requires Inv(s)
    ensures Inv(Next(s, step))
  {
    StepFlight(s, step);
    StepLedger(s, step);
  }

  /** No step makes the cascade forget a request made earlier. */
  lemma {:induction false} StepKeeps(s: State, step: Step, r: nat)
    requires Inv(s) && r < s.asked && Kept(s, r)
    ensures Kept(Next(s, step), r)
  {
    assert Places(s, r) == 1;
  }

  lemma {:induction false} AskKeeps(s: State, ask: Step)
    requires Inv(s) && ask.Ask? && Safe(s, ask)
    ensures Kept(Next(s, ask), s.asked)
  {
  }

  lemma {:induction false} RunInv(s: State, steps: seq<Step>)
    requires Inv(s)
    ensures Inv(RunFrom(s, steps))
    decreases |steps|
  {
    if steps != [] {
      StepInv(s, steps[0]);
      RunInv(Next(s, steps[0]), steps[1..]);
    }
  }

  lemma {:induction false} RunKeeps(s: State, steps: seq<Step>, r: nat)
    requires Inv(s) && r < s.asked && Kept(s, r)
    ensures Kept(RunFrom(s, steps), r) && r < RunFrom(s, steps).asked
    decreases |steps|
  {
    if steps != [] {
      StepInv(s, steps[0]);
      StepKeeps(s, steps[0], r);
      RunKeeps(Next(s, steps[0]), steps[1..], r);
    }
  }

  lemma {:induction false} Reached(steps: seq<Step>)
    ensures Inv(Run(steps))
  {
    assert forall i :: !InFlight(INIT, i);
    RunInv(INIT, steps);
  }

  lemma {:induction false} RunCons(s: State, step: Step, rest: seq<Step>)
    ensures RunFrom(s, [step] + rest) == RunFrom(Next(s, step), rest)
  {
    assert ([step] + rest)[1..] == rest;
  }

  lemma {:induction false} RunThrough(s: State, before: seq<Step>, ask: Step, after: seq<Step>)
    ensures RunFrom(s, before + [ask] + after) == RunFrom(Next(RunFrom(s, before), ask), after)
    decreases |before|
  {
    var steps := before + [ask] + after;
    if before == [] {
      assert steps[0] == ask && steps[1..] == after;
    } else {
      assert steps[0] == before[0] && steps[1..] == before[1..] + [ask] + after;
      RunThrough(Next(s, before[0]), before[1..], ask, after);
    }
  }

  // ── Theorems ─────────────────────────────────────────────────────────────────────────────────

  /** In every run whatsoever at most one pass is in flight, and the guard says whether one is. */
  lemma {:induction false} AtMostOnePass(steps: seq<Step>)
    ensures SingleFlight(Run(steps))
  {
    Reached(steps);
  }

  /** A pass begins exactly when a call comes that finds none running, a connection wanted and the app
      awake, and begins without a request to run again; and it goes round exactly when it is over, was
      asked to run again and is still wanted. */
  lemma {:induction false} PassBeginsIff(s: State, step: Step)
    ensures |Next(s, step).passes| == |s.passes| + 1 <==>
      && (step == Trigger || (step.Land? && step.ask in s.pending))
      && !s.flags.running && s.flags.desired && !s.flags.dormant
    ensures |Next(s, step).passes| == |s.passes| + 1 ==> Next(s, step).flags.running && !Next(s, step).flags.rerun
    ensures step.DropEnds? && InFlight(s, step.pass) && s.passes[step.pass] == Dropping ==>
      Next(s, step).passes[step.pass] == if s.flags.rerun && s.flags.desired then Passing else Ended
    ensures step.PassEnds? && InFlight(s, step.pass) && s.passes[step.pass] == Passing ==>
      Next(s, step).passes[step.pass] ==
        if !(s.flags.rerun && s.flags.desired) then Ended else if step.connected then Dropping else Passing
  {
    assert |Enter(s).passes| == |s.passes| + if s.flags.Admits() then 1 else 0;
  }

  /** A step by which nobody comes to want a connection. */
  predicate Unwanting(step: Step) { step != Want(true) && !(step.Ask? && step.wants) }

  /** While no connection is wanted nothing is served and no pass begins; the one in flight, once over,
      stays over. */
  lemma {:induction false} UnwantedStaysQuiet(s: State, steps: seq<Step>, i: nat)
    requires !s.flags.desired && forall k :: 0 <= k < |steps| ==> Unwanting(steps[k])
    ensures var t := RunFrom(s, steps);
      && t.served == s.served && |t.passes| == |s.passes| && !t.flags.desired
      && (i < |s.passes| && s.passes[i] == Ended ==> t.passes[i] == Ended)
    decreases |steps|
  {
    if steps != [] {
      assert Unwanting(steps[0]);
      UnwantedStaysQuiet(Next(s, steps[0]), steps[1..], i);
    }
  }

  /** While the app sleeps and no pass is running none begins. */
  lemma {:induction false} DormantStaysQuiet(s: State, steps: seq<Step>)
    requires Inv(s) && s.flags.dormant && !s.flags.running && Sleep(false) !in steps
    ensures var t := RunFrom(s, steps); t.served == s.served && t.passes == s.passes && !t.flags.running
    decreases |steps|
  {
    if steps != [] {
      StepInv(s, steps[0]);
      DormantStep(s, steps[0]);
      DormantStaysQuiet(Next(s, steps[0]), steps[1..]);
    }
  }

  lemma {:induction false} DormantStep(s: State, step: Step)
    requires SingleFlight(s) && s.flags.dormant && !s.flags.running && step != Sleep(false)
    ensures var t := Next(s, step); t.served == s.served && t.passes == s.passes && t.flags.dormant && !t.flags.running
  {
    assert forall i :: 0 <= i < |s.passes| ==> !InFlight(s, i) && s.passes[i] == Ended;
  }

  /** What was last said about wanting a connection. */
  function Wish(steps: seq<Step>): bool
  {
    if steps == [] then true
    else
      var e := steps[|steps| - 1];
      if e.Want? then e.on else (e.Ask? && e.wants) || Wish(steps[..|steps| - 1])
  }

  function Asleep(steps: seq<Step>): bool
  {
    if steps == [] then false
    else
      var e := steps[|steps| - 1];
      if e.Sleep? then e.on else Asleep(steps[..|steps| - 1])
  }

  lemma {:induction false} RunMore(s: State, steps: seq<Step>, step: Step)
    ensures RunFrom(s, steps + [step]) == Next(RunFrom(s, steps), step)
  {
    RunThrough(s, steps, step, []);
    assert steps + [step] + [] == steps + [step];
  }

  /** In every run the cascade goes by what was last said, and by nothing else. */
  lemma {:induction false} FlagsFollow(steps: seq<Step>)
    ensures Run(steps).flags.desired == Wish(steps) && Run(steps).flags.dormant == Asleep(steps)
    decreases |steps|
  {
    if steps != [] {
      var n := |steps| - 1;
      FlagsFollow(steps[..n]);
      RunMore(INIT, steps[..n], steps[n]);
      StepFlags(Run(steps[..n]), steps[n]);
      assert steps[..n] + [steps[n]] == steps;
    }
  }

  lemma {:induction false} StepFlags(s: State, step: Step)
    ensures Next(s, step).flags.desired == if step.Want? then step.on else (step.Ask? && step.wants) || s.flags.desired
    ensures Next(s, step).flags.dormant == if step.Sleep? then step.on else s.flags.dormant
  {
  }

  predicate GoesRound(s: State, step: Step)
  {
    && (step.PassEnds? || step.DropEnds?) && step.pass < |s.passes|
    && s.passes[step.pass] == (if step.PassEnds? then Passing else Dropping)
    && Next(s, step).passes[step.pass] == Passing
  }

  /** How often a pass went round, and how many requests set the flag. */
  function Rounds(s: State, steps: seq<Step>): nat
    decreases |steps|
  {
    if steps == [] then 0 else (if GoesRound(s, steps[0]) then 1 else 0) + Rounds(Next(s, steps[0]), steps[1..])
  }

  function Flagging(steps: seq<Step>): nat
  {
    if steps == [] then 0 else (if steps[0].Ask? && steps[0].flagged then 1 else 0) + Flagging(steps[1..])
  }

  lemma {:induction false} RoundUsesFlag(s: State, step: Step)
    ensures (if GoesRound(s, step) then 1 else 0) + (if Next(s, step).flags.rerun then 1 else 0)
            <= (if step.Ask? && step.flagged then 1 else 0) + if s.flags.rerun then 1 else 0
  {
  }

  /** A pass goes round at most once per request that sets the flag: the cascade never spins. */
  lemma {:induction false} RoundsAreAskedFor(s: State, steps: seq<Step>)
    ensures Rounds(s, steps) <= Flagging(steps) + if s.flags.rerun then 1 else 0
    decreases |steps|
  {
    if steps != [] {
      RoundUsesFlag(s, steps[0]);
      RoundsAreAskedFor(Next(s, steps[0]), steps[1..]);
    }
  }

  /** A call is made once or never: it is not to come any more when it landed or was rejected. */
  lemma {:induction false} CalledAtMostOnce(s: State, r: nat, step: Step, more: seq<Step>)
    requires Inv(s) && r < s.asked && (step == Land(r) || step == Reject(r))
    ensures r !in RunFrom(Next(s, step), more).pending
  {
    StepInv(s, step);
    NeverPendingAgain(Next(s, step), r, more);
  }

  lemma {:induction false} NeverPendingAgain(s: State, r: nat, steps: seq<Step>)
    requires r < s.asked && r !in s.pending
    ensures r !in RunFrom(s, steps).pending
    decreases |steps|
  {
    if steps != [] { NeverPendingAgain(Next(s, steps[0]), r, steps[1..]); }
  }

  /** What can excuse a request: it is made, or still waits, when no connection is wanted or the app
      sleeps; the pass it waits for throws; or its own call will never be made. */
  lemma {:induction false} ExcusedOnlyBy(s: State, step: Step, r: nat)
    requires r in Next(s, step).excused && r !in s.excused
    ensures match step
            case Ask(flagged, wants) => r == s.asked && (!(s.flags.desired || wants) || s.flags.dormant)
            case Reject(ask) => r == ask && r in s.pending && !s.flags.running
            case Throw(pass) => InFlight(s, pass)
            case Want(on) => !on
            case Sleep(on) => on
            case _ => false
  {
  }

  /** No re-run request is lost that was safe when it was made, whatever other requesters did before
      or do later: it is served, excused, or still waiting with the flag set inside the running pass
      or with its own call to come. */
  lemma {:induction false} NoneLost(before: seq<Step>, ask: Step, after: seq<Step>)
    requires ask.Ask? && Safe(Run(before), ask)
    ensures var r := Run(before).asked; var s := Run(before + [ask] + after);
      Places(s, r) == 1 && (r in s.waiting ==> Remembered(s, r))
  {
    Reached(before);
    Reached(before + [ask] + after);
    var s := Run(before);
    StepInv(s, ask);
    AskKeeps(s, ask);
    RunKeeps(Next(s, ask), after, s.asked);
    RunThrough(INIT, before, ask, after);
  }

  /** In particular none of a requester that sets the flag, in any run. */
  lemma {:induction false} FlaggedNeverLost(before: seq<Step>, wants: bool, after: seq<Step>)
    ensures var r := Run(before).asked; var s := Run(before + [Ask(true, wants)] + after);
      Places(s, r) == 1 && (r in s.waiting ==> Remembered(s, r))
  {
    NoneLost(before, Ask(true, wants), after);
  }

  /** The very next thing that happens to a remembered request serves it: the end of the pass in
      flight (with the drop of a connection made under old preferences), else its own call. */
  ghost predicate ServesNext(s: State, r: nat, i: nat, connected: bool)
  {
    && (!s.flags.running ==> r in Next(s, Land(r)).served)
    && (InFlight(s, i) && s.passes[i] == Dropping ==> r in Next(s, DropEnds(i)).served)
    && (InFlight(s, i) && s.passes[i] == Passing ==>
          var t := Next(s, PassEnds(i, connected));
          r in t.served || (connected && r in Next(t, DropEnds(i)).served))
  }

  /** A request that was safe when it was made and still waits is served next, in any run. */
  lemma {:induction false} ServedNext(before: seq<Step>, ask: Step, after: seq<Step>, i: nat, connected: bool)
    requires ask.Ask? && Safe(Run(before), ask)
    requires Run(before).asked in Run(before + [ask] + after).waiting
    ensures ServesNext(Run(before + [ask] + after), Run(before).asked, i, connected)
  {
    NoneLost(before, ask, after);
    Reached(before + [ask] + after);
  }

  /** Any other request can be lost: it is forgotten once its own call has been dropped by the guard. */
  lemma {:induction false} UnsafeIsLost(s: State, wants: bool)
    requires (s.flags.desired || wants) && !s.flags.dormant && !Safe(s, Ask(false, wants))
    ensures var r := s.asked; var t := Next(Next(s, Ask(false, wants)), Land(r));
      r in t.waiting && !Remembered(t, r) && r !in t.pending
  {
  }

  ghost predicate AlwaysKept(s: State, r: nat) { forall after :: Kept(RunFrom(s, after), r) }

  /** The condition is exact: in every reachable state a request that comes to wait is kept, however
      the run goes on, if and only if it was safe when it was made. */
  lemma {:induction false} KeptIffSafe(before: seq<Step>, ask: Step)
    requires ask.Ask? && Run(before).asked in Next(Run(before), ask).waiting
    ensures var s := Run(before);
      Safe(s, ask) <==> AlwaysKept(Next(s, ask), s.asked)
  {
    var s := Run(before);
    var t := Next(s, ask);
    Reached(before);
    if Safe(s, ask) {
      StepInv(s, ask);
      AskKeeps(s, ask);
      forall after ensures Kept(RunFrom(t, after), s.asked) { RunKeeps(t, after, s.asked); }
    } else {
      assert s.asked !in s.waiting by { assert Places(s, s.asked) == 0; }
      assert ask == Ask(false, ask.wants);
      UnsafeIsLost(s, ask.wants);
      RunCons(t, Land(s.asked), []);
      assert !Kept(RunFrom(t, [Land(s.asked)] + []), s.asked);
    }
  }

  /** And the app gets there: a request of that kind during the first pass, its own call and the retry
      that its disconnect arms both dropped by the guard, ends unserved when the pass connects, with
      no pass running and no call of its own to come. */
  lemma {:induction false} LostForGood()
    ensures var s := Run([Trigger, Ask(false, false), Land(0), Trigger, PassEnds(0, true)]);
      && s.waiting == {0} && s.served == s.excused == {} && s.pending == {}
      && !s.flags.running && s.flags.desired && !s.flags.dormant
  {
    var ask, end := Ask(false, false), PassEnds(0, true);
    var s1 := Next(INIT, Trigger);
    var s2 := Next(s1, ask);
    var s3 := Next(s2, Land(0));
    assert s3.pending == {} && s3.waiting == {0} && Next(s3, Trigger) == s3;
    RunCons(s3, end, []);
    RunCons(s3, Trigger, [end]);
    RunCons(s2, Land(0), [Trigger, end]);
    RunCons(s1, ask, [Land(0), Trigger, end]);
    RunCons(INIT, Trigger, [ask, Land(0), Trigger, end]);
    assert [end] + [] == [end] && [Trigger] + [end] == [Trigger, end];
    assert [Land(0)] + [Trigger, end] == [Land(0), Trigger, end];
    assert [ask] + [Land(0), Trigger, end] == [ask, Land(0), Trigger, end];
    assert [Trigger] + [ask, Land(0), Trigger, end] == [Trigger, ask, Land(0), Trigger, end];
  }
}
