/**
 * The shutdown drain of the SOCKS server: signal, abort the accept loop, wait for the last token.
 *
 * A step is what one task does between two points where another can be seen: a clone, a spawn, a
 * dropped future, a read of the count. A run is any interleaving. `strong` and `clients` are the
 * two shared counters, changed only by the step that clones or drops.
 */
module SocksDrain {
  /** The accept loop; the two middle stages lie between its clones and the spawn. */
  datatype Loop = Waiting | HasClient | HasToken | Stopped

  /** A connection task: inside its select, past it but still holding its token, or gone. */
  datatype Stage = Running | Released | Ended

  /** `seen` is the version of the watch channel its receiver last saw. */
  datatype Conn = Conn(stage: Stage, seen: nat)

  datatype Phase = Serving | Signalled | Draining | Returned

  /** `backlog`: connections the accept loop can still take before the requested abort lands. */
  datatype State = State(
    phase: Phase, version: nat, loop: Loop, loopSeen: nat, backlog: nat, conns: seq<Conn>,
    strong: int, clients: int)

  /** After `serve`: the struct and the accept loop hold a token each, the loop holds the client. */
  const BOUND := State(Serving, 0, Waiting, 0, 0, [], 2, 1)

  datatype Step =
    | Accept | TakeToken | Spawn | Land
    | Finish(conn: nat) | Cancel(conn: nat) | DropToken(conn: nat)
    | Signal | Abort(backlog: nat) | Poll

  // ── Steps ────────────────────────────────────────────────────────────────────────────────────

  function Accepted(s: State): State
  {
    if s.loop != Waiting || (s.phase.Draining? && s.backlog == 0) then s
    else s.(loop := HasClient, clients := s.clients + 1,
            backlog := if s.phase.Draining? then s.backlog - 1 else s.backlog)
  }

  function LoopStep(s: State, step: Step): State
  {
    match step
    case TakeToken => if s.loop == HasClient then s.(loop := HasToken, strong := s.strong + 1) else s
    case Spawn => if s.loop == HasToken then s.(loop := Waiting, conns := s.conns + [Conn(Running, s.loopSeen)]) else s
    case Land =>
      if s.loop == Waiting && s.phase.Draining?
      then s.(loop := Stopped, strong := s.strong - 1, clients := s.clients - 1) else s
    case _ => s
  }

  /** Leaving the select drops the connection future, and the client clone with it. */
  function Leave(s: State, i: nat): State
    requires i < |s.conns|
  {
    if s.conns[i].stage != Running then s
    else s.(conns := s.conns[i := s.conns[i].(stage := Released)], clients := s.clients - 1)
  }

  function ConnStep(s: State, step: Step): State
  {
    match step
    case Finish(i) => if i < |s.conns| then Leave(s, i) else s
    case Cancel(i) => if i < |s.conns| && s.conns[i].seen != s.version then Leave(s, i) else s
    case DropToken(i) =>
      if i < |s.conns| && s.conns[i].stage == Released
      then s.(conns := s.conns[i := s.conns[i].(stage := Ended)], strong := s.strong - 1) else s
    case _ => s
  }

  function Next(s: State, step: Step): State
  {
    match step
    case Accept => Accepted(s)
    case Signal => if s.phase.Serving? then s.(phase := Signalled, version := s.version + 1) else s
    case Abort(n) => if s.phase.Signalled? then s.(phase := Draining, backlog := n) else s
    case Poll => if s.phase.Draining? && s.strong <= 1 then s.(phase := Returned) else s
    case Finish(_) => ConnStep(s, step)
    case Cancel(_) => ConnStep(s, step)
    case DropToken(_) => ConnStep(s, step)
    case _ => LoopStep(s, step)
  }

  function RunFrom(s: State, steps: seq<Step>): State
    decreases |steps|
  {
    if steps == [] then s else RunFrom(Next(s, steps[0]), steps[1..])
  }

  function Run(steps: seq<Step>): State { RunFrom(BOUND, steps) }

  // ── What the counters count ──────────────────────────────────────────────────────────────────

  datatype Measure = Tokens | Clients | Work

  function Share(stage: Stage, m: Measure): nat
  {
    match stage
    case Running => if m == Work then 2 else 1
    case Released => if m == Clients then 0 else 1
    case Ended => 0
  }

  function Total(conns: seq<Conn>, m: Measure): nat
  {
    if conns == [] then 0 else Total(conns[..|conns| - 1], m) + Share(conns[|conns| - 1].stage, m)
  }

  function LoopShare(loop: Loop, m: Measure): nat
  {
    match loop
    case Waiting => 1
    case HasClient => (match m case Tokens => 1 case Clients => 2 case Work => 5)
    case HasToken => (match m case Tokens => 2 case Clients => 2 case Work => 4)
    case Stopped => 0
  }

  ghost predicate Inv(s: State)
  {
    && s.strong == 1 + LoopShare(s.loop, Tokens) + Total(s.conns, Tokens)
    && s.clients == LoopShare(s.loop, Clients) + Total(s.conns, Clients)
    && s.loopSeen == 0
    && (s.version == 0 <==> s.phase.Serving?)
    && (forall i :: 0 <= i < |s.conns| ==> s.conns[i].seen == 0)
    && (s.phase.Returned? ==> s.strong <= 1)
  }

  lemma {:induction false} TotalAppend(conns: seq<Conn>, c: Conn, m: Measure)
    ensures Total(conns + [c], m) == Total(conns, m) + Share(c.stage, m)
  {
    assert (conns + [c])[..|conns|] == conns;
  }

  lemma {:induction false} TotalUpdate(conns: seq<Conn>, i: nat, c: Conn, m: Measure)
    requires i < |conns|
    ensures Total(conns[i := c], m) + Share(conns[i].stage, m) == Total(conns, m) + Share(c.stage, m)
  {
    var n := |conns| - 1;
    if i == n {
      assert conns[i := c][..n] == conns[..n];
    } else {
      assert conns[i := c][..n] == conns[..n][i := c];
      TotalUpdate(conns[..n], i, c, m);
    }
  }

  lemma {:induction false} TotalZero(conns: seq<Conn>, m: Measure)
    requires m != Clients
    ensures Total(conns, m) == 0 <==> forall i :: 0 <= i < |conns| ==> conns[i].stage == Ended
  {
    if conns != [] {
      var rest := conns[..|conns| - 1];
      TotalZero(rest, m);
      assert forall i :: 0 <= i < |rest| ==> rest[i] == conns[i];
    }
  }

  lemma {:induction false} ClientsAreTokens(conns: seq<Conn>)
    ensures Total(conns, Clients) <= Total(conns, Tokens)
  {
    if conns != [] { ClientsAreTokens(conns[..|conns| - 1]); }
  }

  // ── Every step keeps the counters right ──────────────────────────────────────────────────────

  lemma {:induction false} LeaveKeeps(s: State, i: nat)
    requires Inv(s) && i < |s.conns|
    ensures Inv(Leave(s, i))
    ensures s.conns[i].stage == Running ==> Leave(s, i).conns[i].stage == Released
  {
    var c := s.conns[i].(stage := Released);
    TotalUpdate(s.conns, i, c, Tokens);
    TotalUpdate(s.conns, i, c, Clients);
  }

  lemma {:induction false} DropKeeps(s: State, i: nat)
    requires Inv(s)
    ensures Inv(ConnStep(s, DropToken(i)))
  {
    if i < |s.conns| {
      var c := s.conns[i].(stage := Ended);
      TotalUpdate(s.conns, i, c, Tokens);
      TotalUpdate(s.conns, i, c, Clients);
    }
  }

  lemma {:induction false} LoopKeeps(s: State, step: Step)
    requires Inv(s)
    ensures Inv(LoopStep(s, step))
  {
    match step
    case Spawn => SpawnKeeps(s);
    case TakeToken =>
    case Land =>
    case _ =>
  }

  lemma {:induction false} SpawnKeeps(s: State)
    requires Inv(s)
    ensures Inv(LoopStep(s, Spawn))
  {
    if s.loop == HasToken {
      var c, t := Conn(Running, s.loopSeen), LoopStep(s, Spawn);
      TotalAppend(s.conns, c, Tokens);
      TotalAppend(s.conns, c, Clients);
      assert t.conns == s.conns + [c];
      assert forall i :: 0 <= i < |t.conns| ==> t.conns[i].seen == 0;
    }
  }

  /** No step lets the token count or the client count drift from the tasks that hold them. */
  lemma {:induction false} StepKeeps(s: State, step: Step)
    requires Inv(s)
    ensures Inv(Next(s, step))
  {
    match step
    case Finish(i) => if i < |s.conns| { LeaveKeeps(s, i); }
    case Cancel(i) => if i < |s.conns| { LeaveKeeps(s, i); }
    case DropToken(i) => DropKeeps(s, i);
    case Accept => assert Inv(Accepted(s));
    case Signal =>
    case Abort(_) =>
    case Poll =>
    case _ => LoopKeeps(s, step);
  }

  lemma {:induction false} RunKeeps(s: State, steps: seq<Step>)
    requires Inv(s)
    ensures Inv(RunFrom(s, steps))
    decreases |steps|
  {
    if steps != [] {
      StepKeeps(s, steps[0]);
      RunKeeps(Next(s, steps[0]), steps[1..]);
    }
  }

  lemma {:induction false} RunInv(steps: seq<Step>)
    ensures Inv(Run(steps))
  {
    RunKeeps(BOUND, steps);
  }

  // ── Safety ───────────────────────────────────────────────────────────────────────────────────

  /** Nothing of the server is left to hold a client clone. */
  ghost predicate Quiet(s: State)
  {
    s.loop == Stopped && forall i :: 0 <= i < |s.conns| ==> s.conns[i].stage == Ended
  }

  lemma {:induction false} LastToken(s: State)
    requires Inv(s)
    ensures s.strong <= 1 <==> Quiet(s)
    ensures Quiet(s) ==> s.clients == 0 && s.strong == 1
  {
    TotalZero(s.conns, Tokens);
    ClientsAreTokens(s.conns);
  }

  lemma {:induction false} QuietForever(s: State, steps: seq<Step>)
    requires Inv(s) && s.phase.Returned?
    ensures RunFrom(s, steps) == s
    decreases |steps|
  {
    LastToken(s);
    if steps != [] {
      assert Next(s, steps[0]) == s;
      QuietForever(s, steps[1..]);
    }
  }

  /** When `shutdown` has returned, no task and no client clone is left, and none appears later. */
  lemma {:induction false} ReturnedMeansGone(steps: seq<Step>, more: seq<Step>)
    requires Run(steps).phase.Returned?
    ensures Quiet(Run(steps)) && Run(steps).clients == 0
    ensures RunFrom(Run(steps), more) == Run(steps)
  {
    RunInv(steps);
    LastToken(Run(steps));
    QuietForever(Run(steps), more);
  }

  /** A poll of the drain loop returns exactly when the server is quiet; it never gives up early. */
  lemma {:induction false} PollReturnsIffQuiet(steps: seq<Step>)
    requires Run(steps).phase.Draining?
    ensures Next(Run(steps), Poll).phase.Returned? <==> Quiet(Run(steps))
  {
    RunInv(steps);
    LastToken(Run(steps));
  }

  /** Once signalled, every task still in its select can leave it at once, whenever it was spawned:
      its receiver is a clone of one that never saw the signal. */
  lemma {:induction false} CancelAlwaysReady(steps: seq<Step>, i: nat)
    requires !Run(steps).phase.Serving?
    requires i < |Run(steps).conns| && Run(steps).conns[i].stage == Running
    ensures Next(Run(steps), Cancel(i)).conns[i].stage == Released
  {
    RunInv(steps);
    LeaveKeeps(Run(steps), i);
  }

  // ── Progress ─────────────────────────────────────────────────────────────────────────────────

  /** Steps the drain still has to see: an upper bound on everything but idle polls. */
  function Remaining(s: State): nat
  {
    5 * s.backlog + LoopShare(s.loop, Work) + Total(s.conns, Work) + if s.phase.Returned? then 0 else 1
  }

  lemma {:induction false} ConnWork(s: State, step: Step)
    requires step.Finish? || step.Cancel? || step.DropToken?
    ensures ConnStep(s, step) == s || Remaining(ConnStep(s, step)) < Remaining(s)
  {
    if step.conn < |s.conns| {
      var c := s.conns[step.conn];
      TotalUpdate(s.conns, step.conn, c.(stage := if step.DropToken? then Ended else Released), Work);
    }
  }

  /** While draining, every step either changes nothing or uses up some of the remaining work. */
  lemma {:induction false} EveryStepDrains(s: State, step: Step)
    requires s.phase.Draining?
    ensures Next(s, step) == s || Remaining(Next(s, step)) < Remaining(s)
  {
    if step.Finish? || step.Cancel? || step.DropToken? {
      ConnWork(s, step);
    } else {
      TotalAppend(s.conns, Conn(Running, s.loopSeen), Work);
    }
  }

  /** The step a draining server can take without any connection finishing by itself. */
  function Drive(s: State): Step
  {
    match s.loop
    case HasClient => TakeToken
    case HasToken => Spawn
    case Waiting => Land
    case Stopped => DriveConn(s.conns)
  }

  function DriveConn(conns: seq<Conn>): Step
  {
    if conns == [] then Poll
    else
      var i := |conns| - 1;
      match conns[i].stage
      case Running => Cancel(i)
      case Released => DropToken(i)
      case Ended => DriveConn(conns[..i])
  }

  /** Aims at a task that is not gone, or at none when all are. */
  lemma {:induction false} DriveAims(conns: seq<Conn>)
    ensures match DriveConn(conns)
            case Cancel(i) => i < |conns| && conns[i].stage == Running
            case DropToken(i) => i < |conns| && conns[i].stage == Released
            case Poll => forall i :: 0 <= i < |conns| ==> conns[i].stage == Ended
            case _ => false
  {
    if conns != [] && conns[|conns| - 1].stage == Ended {
      var rest := conns[..|conns| - 1];
      DriveAims(rest);
      assert forall i :: 0 <= i < |rest| ==> rest[i] == conns[i];
    }
  }

  lemma {:induction false} DriveMoves(s: State)
    requires Inv(s) && s.phase.Draining?
    ensures Next(s, Drive(s)) != s
    ensures !Drive(s).Finish?
  {
    if s.loop == Stopped {
      DriveAims(s.conns);
      LastToken(s);
      match Drive(s)
      case Cancel(i) => LeaveKeeps(s, i);
      case _ =>
    }
  }

  ghost predicate NoFinish(steps: seq<Step>)
  {
    forall k :: 0 <= k < |steps| ==> !steps[k].Finish?
  }

  /** From any reachable draining state the drain can run to its end in at most `Remaining` steps,
      even if no connection ever finishes by itself. */
  lemma {:induction false} DrainCanFinish(s: State) returns (steps: seq<Step>)
    requires Inv(s) && s.phase.Draining?
    ensures RunFrom(s, steps).phase.Returned?
    ensures |steps| <= Remaining(s) && NoFinish(steps)
    decreases Remaining(s)
  {
    DriveMoves(s);
    EveryStepDrains(s, Drive(s));
    StepKeeps(s, Drive(s));
    var t := Next(s, Drive(s));
    var rest: seq<Step> := [];
    if t.phase.Draining? { rest := DrainCanFinish(t); }
    steps := [Drive(s)] + rest;
    assert steps[1..] == rest;
  }

  /** Before the signal no task can cancel, and the loop takes every connection; after the abort was
      requested it can still take as many as were in its backlog. */
  lemma {:induction false} Admission(steps: seq<Step>, i: nat)
    ensures var s := Run(steps); s.phase.Serving? ==> Next(s, Cancel(i)) == s
    ensures var s := Run(steps); s.loop == Waiting ==>
      var t := Next(Next(Next(s, Accept), TakeToken), Spawn);
      && t.loop == Waiting
      && t.conns == s.conns + (if s.phase.Draining? && s.backlog == 0 then [] else [Conn(Running, 0)])
      && t.backlog == if s.phase.Draining? && s.backlog > 0 then s.backlog - 1 else s.backlog
  {
    RunInv(steps);
    var s := Run(steps);
    assert s.conns + [] == s.conns;
  }

  /** A shutdown of a serving socket, whatever its connections do and however many are still in the
      backlog, can run to its end. */
  lemma {:induction false} ShutdownCanFinish(before: seq<Step>, backlog: nat) returns (steps: seq<Step>)
    requires Run(before).phase.Serving?
    ensures var s := Next(Next(Run(before), Signal), Abort(backlog));
      s.backlog == backlog && s.conns == Run(before).conns && RunFrom(s, steps).phase.Returned? && NoFinish(steps)
  {
    RunInv(before);
    StepKeeps(Run(before), Signal);
    StepKeeps(Next(Run(before), Signal), Abort(backlog));
    steps := DrainCanFinish(Next(Next(Run(before), Signal), Abort(backlog)));
  }

  /** Steps of a run that changed something. */
  function Moves(s: State, steps: seq<Step>): nat
    decreases |steps|
  {
    if steps == [] then 0
    else (if Next(s, steps[0]) != s then 1 else 0) + Moves(Next(s, steps[0]), steps[1..])
  }

  /** No schedule can keep the drain busy for longer than that: only idle polls are unbounded. */
  lemma {:induction false} DrainIsBounded(s: State, steps: seq<Step>)
    requires Inv(s) && (s.phase.Draining? || s.phase.Returned?)
    ensures Moves(s, steps) <= Remaining(s)
    decreases |steps|
  {
    if steps != [] {
      if s.phase.Draining? { EveryStepDrains(s, steps[0]); } else { QuietForever(s, [steps[0]]); }
      StepKeeps(s, steps[0]);
      DrainIsBounded(Next(s, steps[0]), steps[1..]);
    }
  }
}
