/**
 * The daemon lifecycle: start, install-auth and stop over the global slots, with background tasks.
 *
 * Calls are serial; the tasks of the live runtime interleave with every step of a call. Calls are
 * numbered, and a lifecycle carries the number of the start that created it. Each step is one
 * access to a slot or the gate, one await or one emitted event. Shutting a runtime down aborts
 * its tasks.
 */
module Lifecycle {
  import opened Common
  import P = Probe

  const ERR_BAD_CONFIG := -1
  const ERR_ONION_AUTH := -4
  const ERR_SOCKS_BIND := -5
  const ERR_ALREADY_RUNNING := -6
  const ERR_NOT_RUNNING := -8

  /** What the outside world saw: events, the bind behind `connected`, and returns of calls. */
  datatype Entry =
    | Bound(life: nat, port: int)
    | Bootstrapping(life: nat, percent: int)
    | Connected(life: nat, port: int)
    | Verdict(life: nat, alive: bool)
    | Failed(call: nat)
    | Stopped(before: nat)
    | StartReturned(life: nat, code: int)
    | InstallReturned(call: nat, code: int)

  datatype Job = Pump | Probe
  datatype Status = Live | Done | Aborted
  datatype Task = Task(life: nat, job: Job, status: Status)

  /** Where the one call in progress is. */
  datatype Call =
    | Idle
    | Opening(n: nat, host: bool) | Resetting(n: nat, host: bool) | Booting(n: nat, host: bool)
    | Publishing(n: nat, host: bool, port: int) | Announcing(n: nat, host: bool, port: int)
    | Verifying(n: nat, host: bool, port: int) | Settling(n: nat, code: int)
    | Returning(n: nat, code: int, booted: bool)
    | Looking(n: nat, host: bool) | Installing(n: nat, life: nat, host: bool) | Entering(n: nat, life: nat)
    | Spawning(n: nat, on: nat) | Replying(n: nat, code: int)
    | Taking | Taken(h: Option<nat>) | Draining(h: Option<nat>, rt: Option<nat>) | Rearming | Saying

  /** `hosted`: a relay host has been named in the live lifecycle (bookkeeping). */
  datatype State = State(
    handle: Option<nat>, runtime: Option<nat>, gate: bool, tasks: seq<Task>,
    call: Call, calls: nat, hosted: bool, log: seq<Entry>)

  const FRESH := State(None, None, false, [], Idle, 0, false, [])

  /** What the environment decides when a call moves on. */
  datatype Choice = Go | Fail(code: int) | Progress | Bind(port: int)

  datatype Step =
    | BeginStart(parses: bool, host: bool)
    | BeginInstall(parses: bool, valid: bool, host: bool)
    | BeginStop
    | CallStep(choice: Choice)
    | PumpStep(task: nat, percent: int)
    | ProbeStep(task: nat, answer: P.Verdict)

  // ── Steps ────────────────────────────────────────────────────────────────────────────────────

  function Log(s: State, e: Entry): State { s.(log := s.log + [e]) }

  function Goto(s: State, c: Call): State { s.(call := c) }

  function Begin(s: State, c: Call): State { s.(call := c, calls := s.calls + 1) }

  function Spawned(s: State, t: Task): State { s.(tasks := s.tasks + [t]) }

  /** `spawn_verify`: one probe per lifecycle, by compare-and-exchange on the gate. */
  function SpawnVerify(s: State, life: nat): State
  {
    if s.gate then s else Spawned(s, Task(life, Probe, Live)).(gate := true)
  }

  /** A task when the runtime of `life` has been shut down. */
  function Ended(t: Task, life: nat): Task
  {
    if t.life == life && t.status == Live then t.(status := Aborted) else t
  }

  /** `shutdown_runtime`. */
  function Shutdown(tasks: seq<Task>, life: nat): (r: seq<Task>)
    ensures |r| == |tasks|
  {
    if tasks == [] then [] else Shutdown(tasks[..|tasks| - 1], life) + [Ended(tasks[|tasks| - 1], life)]
  }

  /** The codes of a start that fails after creating its runtime; a configuration that parses can
      still prove bad when it is built. */
  predicate Undone(code: int) { ERR_SOCKS_BIND <= code <= ERR_BAD_CONFIG }

  function StartStep(s: State, ch: Choice): State
  {
    match s.call
    case Opening(n, host) =>
      if s.handle.Some? then Goto(Log(s, Failed(n)), Returning(n, ERR_ALREADY_RUNNING, false))
      else Goto(s, Resetting(n, host))
    case Resetting(n, host) => Goto(Log(s, Bootstrapping(n, 1)), Booting(n, host)).(gate := false, hosted := false)
    case Booting(n, host) => (
      match ch
      case Progress => Spawned(s, Task(n, Pump, Live))
      case Fail(code) => if Undone(code) then Goto(Log(s, Failed(n)), Settling(n, code)) else s
      case Bind(port) => if 0 < port < 65536 then Goto(Log(s, Bound(n, port)), Publishing(n, host, port)) else s
      case Go => s)
    case Publishing(n, host, port) => Goto(s, Announcing(n, host, port)).(handle := Some(n))
    case Announcing(n, host, port) => Goto(Log(s, Connected(n, port)), Verifying(n, host, port))
    case Verifying(n, host, port) =>
      Goto(if host then SpawnVerify(s, n) else s, Settling(n, port)).(hosted := host)
    case Settling(n, code) =>
      if s.handle.Some? then Goto(s, Returning(n, code, true)).(runtime := Some(n))
      else Goto(s, Returning(n, code, true)).(tasks := Shutdown(s.tasks, n))
    case Returning(n, code, _) => Goto(Log(s, StartReturned(n, code)), Idle)
    case _ => s
  }

  function InstallStep(s: State, ch: Choice): State
  {
    match s.call
    case Looking(n, host) =>
      if s.handle.Some? then Goto(s, Installing(n, s.handle.value, host)) else Goto(s, Replying(n, ERR_NOT_RUNNING))
    case Installing(n, life, host) =>
      if ch.Fail? then Goto(Log(s, Failed(n)), Replying(n, ERR_ONION_AUTH))
      else Goto(s, if host then Entering(n, life) else Replying(n, 0))
    case Entering(n, life) =>
      if s.runtime.Some? then Goto(s, Spawning(n, s.runtime.value)) else Goto(s, Replying(n, 0))
    case Spawning(n, rt) => Goto(SpawnVerify(s, rt), Replying(n, 0)).(hosted := true)
    case Replying(n, code) => Goto(Log(s, InstallReturned(n, code)), Idle)
    case _ => s
  }

  function StopStep(s: State): State
  {
    match s.call
    case Taking => Goto(s, Taken(s.handle)).(handle := None)
    case Taken(h) => Goto(s, Draining(h, s.runtime)).(runtime := None)
    case Draining(h, rt) => Goto(s, Rearming).(tasks := if rt.Some? then Shutdown(s.tasks, rt.value) else s.tasks)
    case Rearming => Goto(s, Saying).(gate := false)
    case Saying => Goto(Log(s, Stopped(s.calls)), Idle)
    case _ => s
  }

  predicate InStart(c: Call)
  {
    || c.Opening? || c.Resetting? || c.Booting? || c.Publishing?
    || c.Announcing? || c.Verifying? || c.Settling? || c.Returning?
  }

  predicate InStop(c: Call) { c.Taking? || c.Taken? || c.Draining? || c.Rearming? || c.Saying? }

  function Clamp(percent: int): int { if percent < 1 then 1 else if percent > 98 then 98 else percent }

  /** Only a dead transport is reported as such: a relay that does not answer still proves the path. */
  predicate Alive(answer: P.Verdict) { !answer.TransportDead? }

  function Finish(s: State, i: nat): State
    requires i < |s.tasks|
  {
    s.(tasks := s.tasks[i := s.tasks[i].(status := Done)])
  }

  function Next(s: State, step: Step): State
  {
    match step
    case BeginStart(parses, host) =>
      if !s.call.Idle? then s
      else if !parses then Log(Begin(s, Returning(s.calls, ERR_BAD_CONFIG, false)), Failed(s.calls))
      else Begin(s, Opening(s.calls, host))
    case BeginInstall(parses, valid, host) =>
      if !s.call.Idle? then s
      else if !parses then Log(Begin(s, Replying(s.calls, ERR_BAD_CONFIG)), Failed(s.calls))
      else if !valid then Log(Begin(s, Replying(s.calls, ERR_ONION_AUTH)), Failed(s.calls))
      else Begin(s, Looking(s.calls, host))
    case BeginStop => if s.call.Idle? then Begin(s, Taking) else s
    case CallStep(ch) =>
      if InStart(s.call) then StartStep(s, ch) else if InStop(s.call) then StopStep(s) else InstallStep(s, ch)
    case PumpStep(i, percent) =>
      if i < |s.tasks| && s.tasks[i].status == Live && s.tasks[i].job == Pump
      then Log(s, Bootstrapping(s.tasks[i].life, Clamp(percent))) else s
    case ProbeStep(i, answer) =>
      if i < |s.tasks| && s.tasks[i].status == Live && s.tasks[i].job == Probe
      then Log(Finish(s, i), Verdict(s.tasks[i].life, Alive(answer))) else s
  }

  function RunFrom(s: State, steps: seq<Step>): State
    decreases |steps|
  {
    if steps == [] then s else RunFrom(Next(s, steps[0]), steps[1..])
  }

  function Run(steps: seq<Step>): State { RunFrom(FRESH, steps) }

  // ── The event contract ───────────────────────────────────────────────────────────────────────

  function Connects(log: seq<Entry>, life: nat): nat
  {
    if log == [] then 0
    else Connects(log[..|log| - 1], life) + (var e := log[|log| - 1]; if e.Connected? && e.life == life then 1 else 0)
  }

  function Verdicts(log: seq<Entry>, life: nat): nat
  {
    if log == [] then 0
    else Verdicts(log[..|log| - 1], life) + (var e := log[|log| - 1]; if e.Verdict? && e.life == life then 1 else 0)
  }

  /** No stop since the lifecycle began, and no later lifecycle connected. */
  ghost predicate Current(past: seq<Entry>, life: nat)
  {
    forall e :: e in past ==> (e.Stopped? ==> e.before <= life) && (e.Connected? ==> e.life <= life)
  }

  /** What may be seen next, given all that was seen before. */
  ghost predicate Legal(past: seq<Entry>, e: Entry)
  {
    match e
    case Bootstrapping(life, percent) => 1 <= percent <= 98 && Current(past, life)
    case Connected(life, port) =>
      port > 0 && Bound(life, port) in past && Connects(past, life) == 0 && Current(past, life)
    case Verdict(life, _) => Connects(past, life) == 1 && Verdicts(past, life) == 0 && Current(past, life)
    case StartReturned(life, code) =>
      if code > 0 then Connected(life, code) in past && Connects(past, life) == 1 else Connects(past, life) == 0
    case _ => true
  }

  ghost predicate Lawful(log: seq<Entry>)
  {
    forall j :: 0 <= j < |log| ==> Legal(log[..j], log[j])
  }

  // ── The invariant ────────────────────────────────────────────────────────────────────────────

  /** The lifecycle whose runtime can still run tasks. */
  function Running(s: State): Option<nat>
  {
    match s.call
    case Booting(n, _) => Some(n)
    case Publishing(n, _, _) => Some(n)
    case Announcing(n, _, _) => Some(n)
    case Verifying(n, _, _) => Some(n)
    case Settling(n, _) => Some(n)
    case Draining(_, rt) => rt
    case _ => s.runtime
  }

  ghost predicate SlotInv(s: State)
  {
    match s.call
    case Resetting(_, _) => s.handle == s.runtime == None
    case Booting(_, _) => s.handle == s.runtime == None
    case Publishing(_, _, _) => s.handle == s.runtime == None
    case Announcing(n, _, _) => s.handle == Some(n) && s.runtime == None
    case Verifying(n, _, _) => s.handle == Some(n) && s.runtime == None
    case Settling(n, code) => s.runtime == None && s.handle == if code > 0 then Some(n) else None
    case Installing(_, life, _) => s.handle == s.runtime == Some(life)
    case Entering(_, life) => s.handle == s.runtime == Some(life)
    case Spawning(_, rt) => s.handle == s.runtime == Some(rt)
    case Taken(h) => s.handle == None && s.runtime == h
    case Draining(h, rt) => s.handle == s.runtime == None && h == rt
    case Rearming => s.handle == s.runtime == None
    case Saying => s.handle == s.runtime == None
    case _ => s.handle == s.runtime
  }

  /** How many times the start in progress has announced, and what it will return. */
  ghost predicate StartInv(s: State)
  {
    match s.call
    case Opening(n, _) => n < s.calls && Connects(s.log, n) == 0 && Current(s.log, n)
    case Resetting(n, _) => n < s.calls && Connects(s.log, n) == 0 && Current(s.log, n)
    case Booting(n, _) => !s.hosted && Connects(s.log, n) == 0
    case Publishing(n, _, port) => !s.hosted && Connects(s.log, n) == 0 && port > 0 && Bound(n, port) in s.log
    case Announcing(n, _, port) => !s.hosted && Connects(s.log, n) == 0 && port > 0 && Bound(n, port) in s.log
    case Verifying(n, _, port) => !s.hosted && Connects(s.log, n) == 1 && port > 0 && Connected(n, port) in s.log
    case Settling(n, code) => Outcome(s.log, n, code) && (code > 0 || Undone(code))
    case Returning(n, code, booted) =>
      && Outcome(s.log, n, code)
      && (if booted then (code > 0 || Undone(code)) && s.handle == (if code > 0 then Some(n) else None)
          else code == ERR_BAD_CONFIG || (code == ERR_ALREADY_RUNNING && s.handle.Some?))
    case _ => true
  }

  ghost predicate Outcome(log: seq<Entry>, n: nat, code: int)
  {
    if code > 0 then Connected(n, code) in log && Connects(log, n) == 1 else Connects(log, n) == 0
  }

  /** Probes started for a lifecycle, and those of them that gave their verdict. */
  function Probes(tasks: seq<Task>, life: nat): nat
  {
    if tasks == [] then 0
    else Probes(tasks[..|tasks| - 1], life)
         + (var t := tasks[|tasks| - 1]; if t.job == Probe && t.life == life then 1 else 0)
  }

  function Finished(tasks: seq<Task>, life: nat): nat
  {
    if tasks == [] then 0
    else Finished(tasks[..|tasks| - 1], life)
         + (var t := tasks[|tasks| - 1]; if t.job == Probe && t.life == life && t.status == Done then 1 else 0)
  }

  ghost predicate TaskInv(s: State)
  {
    && (forall i :: 0 <= i < |s.tasks| ==>
          && (s.tasks[i].status == Live ==> Running(s) == Some(s.tasks[i].life))
          && (s.tasks[i].job == Probe ==> Connects(s.log, s.tasks[i].life) == 1)
          && (s.tasks[i].job == Probe && s.tasks[i].status == Aborted ==> Running(s) != Some(s.tasks[i].life)))
    && (forall l: nat :: Probes(s.tasks, l) <= 1)
    && (forall l: nat :: Verdicts(s.log, l) == Finished(s.tasks, l))
  }

  ghost predicate LifeInv(s: State)
  {
    && (Running(s).Some? ==>
          var l := Running(s).value;
          && l < s.calls && Current(s.log, l)
          && (Probes(s.tasks, l) == 1 <==> s.gate)
          && s.gate == s.hosted)
    && (s.runtime.Some? ==> Connects(s.log, s.runtime.value) == 1)
    && (forall l: nat :: l >= s.calls ==> Connects(s.log, l) == 0)
    && (forall e :: e in s.log && e.Stopped? ==> e.before <= s.calls)
  }

  ghost predicate Inv(s: State)
  {
    SlotInv(s) && StartInv(s) && TaskInv(s) && LifeInv(s) && Lawful(s.log)
  }
}
