/** What every run of the daemon keeps, and the event contract it therefore meets. */
module LifecycleSafety {
  import opened Common
  import opened Lifecycle

  // ── Logs and task lists ──────────────────────────────────────────────────────────────────────

  lemma {:induction false} Appended(log: seq<Entry>, e: Entry)
    ensures forall l: nat :: Connects(log + [e], l) == Connects(log, l) + if e.Connected? && e.life == l then 1 else 0
    ensures forall l: nat :: Verdicts(log + [e], l) == Verdicts(log, l) + if e.Verdict? && e.life == l then 1 else 0
  {
    assert (log + [e])[..|log|] == log;
  }

  lemma {:induction false} StaysLawful(log: seq<Entry>, e: Entry)
    requires Lawful(log) && Legal(log, e)
    ensures Lawful(log + [e])
  {
    var t := log + [e];
    forall j | 0 <= j < |t|
      ensures Legal(t[..j], t[j])
    {
      assert t[..j] == log[..j];
      if j == |log| { assert log[..j] == log; }
    }
  }

  lemma {:induction false} Probing(tasks: seq<Task>, life: nat) returns (i: nat)
    requires Probes(tasks, life) > 0
    ensures i < |tasks| && tasks[i].job == Probe && tasks[i].life == life
  {
    i := |tasks| - 1;
    if !(tasks[i].job == Probe && tasks[i].life == life) { i := Probing(tasks[..i], life); }
  }

  lemma {:induction false} Unfinished(tasks: seq<Task>, i: nat)
    requires i < |tasks| && tasks[i].job == Probe
    ensures Probes(tasks, tasks[i].life) >= 1
    ensures tasks[i].status != Done ==> Finished(tasks, tasks[i].life) < Probes(tasks, tasks[i].life)
    ensures Finished(tasks, tasks[i].life) <= Probes(tasks, tasks[i].life)
  {
    var n := |tasks| - 1;
    FinishedAreProbes(tasks[..n], tasks[i].life);
    if i < n { Unfinished(tasks[..n], i); }
  }

  lemma {:induction false} FinishedAreProbes(tasks: seq<Task>, life: nat)
    ensures Finished(tasks, life) <= Probes(tasks, life)
  {
    if tasks != [] { FinishedAreProbes(tasks[..|tasks| - 1], life); }
  }

  lemma {:induction false} Joined(tasks: seq<Task>, t: Task)
    ensures forall l: nat :: Probes(tasks + [t], l) == Probes(tasks, l) + if t.job == Probe && t.life == l then 1 else 0
    ensures forall l: nat ::
      Finished(tasks + [t], l)
      == Finished(tasks, l) + if t.job == Probe && t.life == l && t.status == Done then 1 else 0
  {
    assert (tasks + [t])[..|tasks|] == tasks;
  }

  lemma {:induction false} Answered(tasks: seq<Task>, i: nat, l: nat)
    requires i < |tasks| && tasks[i].job == Probe && tasks[i].status == Live
    ensures Probes(tasks[i := tasks[i].(status := Done)], l) == Probes(tasks, l)
    ensures Finished(tasks[i := tasks[i].(status := Done)], l)
            == Finished(tasks, l) + if tasks[i].life == l then 1 else 0
  {
    var n := |tasks| - 1;
    var u := tasks[i := tasks[i].(status := Done)];
    if i == n {
      assert u[..n] == tasks[..n];
    } else {
      assert u[..n] == tasks[..n][i := tasks[i].(status := Done)];
      Answered(tasks[..n], i, l);
    }
  }

  /** Shutting a runtime down leaves none of its tasks alive … */
  lemma {:induction false} ShutDownTask(tasks: seq<Task>, life: nat, i: nat)
    requires i < |tasks|
    ensures Shutdown(tasks, life)[i] == Ended(tasks[i], life)
  {
    var n := |tasks| - 1;
    if i < n { ShutDownTask(tasks[..n], life, i); }
  }

  /** … and adds no verdict. */
  lemma {:induction false} ShutDownCounts(tasks: seq<Task>, life: nat, l: nat)
    ensures Probes(Shutdown(tasks, life), l) == Probes(tasks, l)
    ensures Finished(Shutdown(tasks, life), l) == Finished(tasks, l)
  {
    if tasks != [] {
      var n := |tasks| - 1;
      ShutDownCounts(tasks[..n], life, l);
      Joined(Shutdown(tasks[..n], life), Ended(tasks[n], life));
    }
  }

  // ── Preservation ─────────────────────────────────────────────────────────────────────────────

  /** Moving a call on, without an event or a task, keeps what concerns the log and the tasks. */
  lemma {:induction false} MoveKeeps(s: State, t: State)
    requires Inv(s) && t.log == s.log && t.tasks == s.tasks
    requires Running(t) == Running(s) && t.calls >= s.calls
    requires t.gate == s.gate && t.hosted == s.hosted
    requires t.runtime.Some? ==> Connects(s.log, t.runtime.value) == 1
    requires SlotInv(t) && StartInv(t)
    ensures Inv(t)
  {
  }

  /** A start in progress is not disturbed by the events of the tasks. */
  lemma {:induction false} SayStart(s: State, e: Entry)
    requires StartInv(s) && !e.Connected? && (e.Stopped? ==> !InStart(s.call))
    ensures StartInv(Log(s, e))
  {
    Appended(s.log, e);
    assert forall x :: x in s.log ==> x in s.log + [e];
  }

  lemma {:induction false} SayLife(s: State, e: Entry)
    requires LifeInv(s) && !e.Connected? && (e.Stopped? ==> e.before <= s.calls && Running(s) == None)
    ensures LifeInv(Log(s, e))
  {
    Appended(s.log, e);
  }

  /** An event that is neither `connected` nor a verdict. */
  lemma {:induction false} SayKeeps(s: State, e: Entry)
    requires Inv(s) && Legal(s.log, e) && !e.Connected? && !e.Verdict?
    requires e.Stopped? ==> e.before <= s.calls && Running(s) == None && !InStart(s.call)
    ensures Inv(Log(s, e))
  {
    SayStart(s, e);
    SayLife(s, e);
    StaysLawful(s.log, e);
    SayTasks(s, e);
  }

  lemma {:induction false} SayTasks(s: State, e: Entry)
    requires TaskInv(s) && !e.Connected? && !e.Verdict?
    ensures TaskInv(Log(s, e))
  {
    Appended(s.log, e);
  }

  lemma {:induction false} BeginKeeps(s: State, c: Call)
    requires Inv(s) && s.call.Idle?
    requires c == Taking || (c.Opening? && c.n == s.calls) || (c.Looking? && c.n == s.calls)
             || (c.Returning? && c.n == s.calls && c.code == ERR_BAD_CONFIG && !c.booted)
             || (c.Replying? && c.n == s.calls)
    ensures Inv(Begin(s, c))
  {
    assert Running(Begin(s, c)) == Running(s);
    assert forall e :: e in s.log && e.Connected? ==> e.life < s.calls by {
      forall e | e in s.log && e.Connected? ensures e.life < s.calls { Announced(s.log, e); }
    }
    MoveKeeps(s, Begin(s, c));
  }

  lemma {:induction false} Announced(log: seq<Entry>, e: Entry)
    requires e in log && e.Connected?
    ensures Connects(log, e.life) > 0
  {
    var n := |log| - 1;
    if log[n] != e { Announced(log[..n], e); }
  }

  lemma {:induction false} PumpKeeps(s: State, i: nat, percent: int)
    requires Inv(s)
    ensures Inv(Next(s, PumpStep(i, percent)))
  {
    if i < |s.tasks| && s.tasks[i].status == Live && s.tasks[i].job == Pump {
      SayKeeps(s, Bootstrapping(s.tasks[i].life, Clamp(percent)));
    }
  }

  lemma {:induction false} FinishTasks(s: State, i: nat, alive: bool)
    requires TaskInv(s) && i < |s.tasks| && s.tasks[i].status == Live && s.tasks[i].job == Probe
    ensures TaskInv(Log(Finish(s, i), Verdict(s.tasks[i].life, alive)))
    ensures forall l: nat :: Probes(Finish(s, i).tasks, l) == Probes(s.tasks, l)
  {
    var u := Finish(s, i).tasks;
    forall l: nat
      ensures Probes(u, l) == Probes(s.tasks, l)
      ensures Finished(u, l) == Finished(s.tasks, l) + if s.tasks[i].life == l then 1 else 0
    {
      Answered(s.tasks, i, l);
    }
    Appended(s.log, Verdict(s.tasks[i].life, alive));
  }

  lemma {:induction false} ProbeKeeps(s: State, i: nat, alive: bool)
    requires Inv(s) && i < |s.tasks| && s.tasks[i].status == Live && s.tasks[i].job == Probe
    ensures Inv(Log(Finish(s, i), Verdict(s.tasks[i].life, alive)))
  {
    var e := Verdict(s.tasks[i].life, alive);
    FinishTasks(s, i, alive);
    var f := Finish(s, i);
    assert LifeInv(f) && StartInv(f) && SlotInv(f);
    SayStart(f, e);
    SayLife(f, e);
    assert Legal(s.log, e) by { Unfinished(s.tasks, i); }
    StaysLawful(s.log, e);
  }

  lemma {:induction false} SpawnKeeps(s: State, t: Task)
    requires TaskInv(s) && t.status == Live && Running(s) == Some(t.life)
    requires t.job == Probe ==> Probes(s.tasks, t.life) == 0 && Connects(s.log, t.life) == 1
    ensures TaskInv(Spawned(s, t))
  {
    Joined(s.tasks, t);
  }

  lemma {:induction false} VerifyKeeps(s: State, life: nat, c: Call)
    requires Inv(s) && Running(s) == Some(life) && Connects(s.log, life) == 1
    requires c.Settling? || c.Replying?
    requires SlotInv(Goto(s, c)) && StartInv(Goto(s, c)) && Running(Goto(s, c)) == Running(s)
    ensures Inv(Goto(SpawnVerify(s, life), c).(hosted := true))
  {
    if s.gate {
      MoveKeeps(s, Goto(s, c));
    } else {
      SpawnKeeps(s, Task(life, Probe, Live));
      assert TaskInv(Goto(SpawnVerify(s, life), c).(hosted := true));
      Joined(s.tasks, Task(life, Probe, Live));
    }
  }

  lemma {:induction false} ShutdownKeeps(s: State, life: nat, c: Call)
    requires Inv(s) && Running(s) == Some(life)
    requires var t := Goto(s, c); SlotInv(t) && StartInv(t) && Running(t) == None
    ensures Inv(Goto(s, c).(tasks := Shutdown(s.tasks, life)))
  {
    var u := Shutdown(s.tasks, life);
    forall i | 0 <= i < |s.tasks|
      ensures u[i] == Ended(s.tasks[i], life)
    {
      ShutDownTask(s.tasks, life, i);
    }
    forall l: nat
      ensures Probes(u, l) == Probes(s.tasks, l) && Finished(u, l) == Finished(s.tasks, l)
    {
      ShutDownCounts(s.tasks, life, l);
    }
  }

  lemma {:induction false} ResetKeeps(s: State)
    requires Inv(s) && s.call.Resetting?
    ensures Inv(StartStep(s, Go))
  {
    var n := s.call.n;
    if Probes(s.tasks, n) > 0 { var i := Probing(s.tasks, n); }
    var e := Bootstrapping(n, 1);
    Appended(s.log, e);
    StaysLawful(s.log, e);
  }

  lemma {:induction false} BootProgress(s: State)
    requires Inv(s) && s.call.Booting?
    ensures Inv(StartStep(s, Progress))
  {
    SpawnKeeps(s, Task(s.call.n, Pump, Live));
    Joined(s.tasks, Task(s.call.n, Pump, Live));
  }

  lemma {:induction false} BootFails(s: State, code: int)
    requires Inv(s) && s.call.Booting? && Undone(code)
    ensures Inv(StartStep(s, Fail(code)))
  {
    SayKeeps(s, Failed(s.call.n));
    MoveKeeps(Log(s, Failed(s.call.n)), StartStep(s, Fail(code)));
  }

  lemma {:induction false} BootBinds(s: State, port: int)
    requires Inv(s) && s.call.Booting? && 0 < port < 65536
    ensures Inv(StartStep(s, Bind(port)))
  {
    SayKeeps(s, Bound(s.call.n, port));
    MoveKeeps(Log(s, Bound(s.call.n, port)), StartStep(s, Bind(port)));
  }

  lemma {:induction false} BootKeeps(s: State, ch: Choice)
    requires Inv(s) && s.call.Booting?
    ensures Inv(StartStep(s, ch))
  {
    match ch
    case Progress => BootProgress(s);
    case Fail(code) => if Undone(code) { BootFails(s, code); }
    case Bind(port) => if 0 < port < 65536 { BootBinds(s, port); }
    case Go =>
  }

  lemma {:induction false} AnnounceTasks(s: State, e: Entry)
    requires TaskInv(s) && e.Connected? && Connects(s.log, e.life) == 0
    ensures TaskInv(Log(s, e))
  {
    Appended(s.log, e);
  }

  lemma {:induction false} AnnounceLife(s: State, e: Entry)
    requires LifeInv(s) && e.Connected? && Running(s) == Some(e.life) && s.runtime == None
    ensures LifeInv(Log(s, e))
  {
    Appended(s.log, e);
  }

  lemma {:induction false} AnnounceStart(s: State)
    requires StartInv(s) && s.call.Announcing?
    ensures StartInv(StartStep(s, Go))
  {
    var e := Connected(s.call.n, s.call.port);
    Appended(s.log, e);
    assert e in s.log + [e];
  }

  lemma {:induction false} AnnounceKeeps(s: State)
    requires Inv(s) && s.call.Announcing?
    ensures Inv(StartStep(s, Go))
  {
    var e := Connected(s.call.n, s.call.port);
    StaysLawful(s.log, e);
    AnnounceTasks(s, e);
    AnnounceLife(s, e);
    AnnounceStart(s);
    var t := StartStep(s, Go);
    assert TaskInv(t) && LifeInv(t);
  }

  lemma {:induction false} OpenKeeps(s: State)
    requires Inv(s) && s.call.Opening?
    ensures Inv(StartStep(s, Go))
  {
    if s.handle.Some? { OpenRefused(s); } else { MoveKeeps(s, StartStep(s, Go)); }
  }

  lemma {:induction false} OpenRefused(s: State)
    requires Inv(s) && s.call.Opening? && s.handle.Some?
    ensures Inv(StartStep(s, Go))
  {
    SayKeeps(s, Failed(s.call.n));
    MoveKeeps(Log(s, Failed(s.call.n)), StartStep(s, Go));
  }

  lemma {:induction false} SettleKeeps(s: State)
    requires Inv(s) && s.call.Settling?
    ensures Inv(StartStep(s, Go))
  {
    if s.handle.Some? {
      MoveKeeps(s, StartStep(s, Go));
    } else {
      ShutdownKeeps(s, s.call.n, Returning(s.call.n, s.call.code, true));
    }
  }

  lemma {:induction false} ReturnKeeps(s: State)
    requires Inv(s) && s.call.Returning?
    ensures Inv(StartStep(s, Go))
  {
    var e := StartReturned(s.call.n, s.call.code);
    SayKeeps(s, e);
    MoveKeeps(Log(s, e), StartStep(s, Go));
  }

  lemma {:induction false} UnhostedKeeps(s: State)
    requires Inv(s) && s.call.Verifying? && !s.call.host
    ensures Inv(StartStep(s, Go))
  {
  }

  lemma {:induction false} StartKeeps(s: State, ch: Choice)
    requires Inv(s)
    ensures Inv(StartStep(s, ch))
  {
    match s.call
    case Opening(_, _) => OpenKeeps(s);
    case Resetting(_, _) => ResetKeeps(s);
    case Booting(_, _) => BootKeeps(s, ch);
    case Publishing(_, _, _) => MoveKeeps(s, StartStep(s, ch));
    case Announcing(_, _, _) => AnnounceKeeps(s);
    case Verifying(n, host, port) => if host { VerifyKeeps(s, n, Settling(n, port)); } else { UnhostedKeeps(s); }
    case Settling(_, _) => SettleKeeps(s);
    case Returning(_, _, _) => ReturnKeeps(s);
    case _ =>
  }

  lemma {:induction false} KeystoreKeeps(s: State, ch: Choice)
    requires Inv(s) && s.call.Installing?
    ensures Inv(InstallStep(s, ch))
  {
    if ch.Fail? { KeystoreFails(s, ch); } else { MoveKeeps(s, InstallStep(s, ch)); }
  }

  lemma {:induction false} KeystoreFails(s: State, ch: Choice)
    requires Inv(s) && s.call.Installing? && ch.Fail?
    ensures Inv(InstallStep(s, ch))
  {
    SayKeeps(s, Failed(s.call.n));
    MoveKeeps(Log(s, Failed(s.call.n)), InstallStep(s, ch));
  }

  lemma {:induction false} ReplyKeeps(s: State)
    requires Inv(s) && s.call.Replying?
    ensures Inv(InstallStep(s, Go))
  {
    SayKeeps(s, InstallReturned(s.call.n, s.call.code));
    MoveKeeps(Log(s, InstallReturned(s.call.n, s.call.code)), InstallStep(s, Go));
  }

  lemma {:induction false} LookKeeps(s: State)
    requires Inv(s) && (s.call.Looking? || s.call.Entering?)
    ensures Inv(InstallStep(s, Go))
  {
  }

  lemma {:induction false} InstallKeeps(s: State, ch: Choice)
    requires Inv(s)
    ensures Inv(InstallStep(s, ch))
  {
    match s.call
    case Looking(_, _) => LookKeeps(s);
    case Installing(_, _, _) => KeystoreKeeps(s, ch);
    case Entering(_, _) => LookKeeps(s);
    case Spawning(n, rt) => VerifyKeeps(s, rt, Replying(n, 0));
    case Replying(_, _) => ReplyKeeps(s);
    case _ =>
  }

  lemma {:induction false} RearmKeeps(s: State)
    requires Inv(s) && s.call.Rearming?
    ensures Inv(StopStep(s))
  {
  }

  lemma {:induction false} SaidKeeps(s: State)
    requires Inv(s) && s.call.Saying?
    ensures Inv(StopStep(s))
  {
    SayKeeps(s, Stopped(s.calls));
    MoveKeeps(Log(s, Stopped(s.calls)), StopStep(s));
  }

  lemma {:induction false} DrainKeeps(s: State)
    requires Inv(s) && s.call.Draining?
    ensures Inv(StopStep(s))
  {
    if s.call.rt.Some? { ShutdownKeeps(s, s.call.rt.value, Rearming); } else { MoveKeeps(s, StopStep(s)); }
  }

  lemma {:induction false} TakeKeeps(s: State)
    requires Inv(s) && (s.call.Taking? || s.call.Taken?)
    ensures Inv(StopStep(s))
  {
  }

  lemma {:induction false} StopKeeps(s: State)
    requires Inv(s)
    ensures Inv(StopStep(s))
  {
    match s.call
    case Taking => TakeKeeps(s);
    case Taken(_) => TakeKeeps(s);
    case Draining(_, _) => DrainKeeps(s);
    case Rearming => RearmKeeps(s);
    case Saying => SaidKeeps(s);
    case _ =>
  }

  lemma {:induction false} BadConfigKeeps(s: State, c: Call)
    requires Inv(s) && s.call.Idle?
    requires (c.Returning? && c.code == ERR_BAD_CONFIG && !c.booted) || c.Replying?
    requires c.n == s.calls
    ensures Inv(Log(Begin(s, c), Failed(s.calls)))
  {
    BeginKeeps(s, c);
    SayKeeps(Begin(s, c), Failed(s.calls));
  }

  lemma {:induction false} CallKeeps(s: State, step: Step)
    requires Inv(s) && (step.BeginStart? || step.BeginInstall? || step.BeginStop?) && s.call.Idle?
    ensures Inv(Next(s, step))
  {
    match step
    case BeginStart(parses, host) =>
      if parses { BeginKeeps(s, Opening(s.calls, host)); }
      else { BadConfigKeeps(s, Returning(s.calls, ERR_BAD_CONFIG, false)); }
    case BeginInstall(parses, valid, host) =>
      if parses && valid { BeginKeeps(s, Looking(s.calls, host)); }
      else { BadConfigKeeps(s, Replying(s.calls, if parses then ERR_ONION_AUTH else ERR_BAD_CONFIG)); }
    case BeginStop => BeginKeeps(s, Taking);
  }

  lemma {:induction false} CallStepKeeps(s: State, ch: Choice)
    requires Inv(s)
    ensures Inv(Next(s, CallStep(ch)))
  {
    if InStart(s.call) { StartKeeps(s, ch); } else if InStop(s.call) { StopKeeps(s); } else { InstallKeeps(s, ch); }
  }

  lemma {:induction false} StepKeeps(s: State, step: Step)
    requires Inv(s)
    ensures Inv(Next(s, step))
  {
    match step
    case CallStep(ch) => CallStepKeeps(s, ch);
    case PumpStep(i, percent) => PumpKeeps(s, i, percent);
    case ProbeStep(i, answer) =>
      if i < |s.tasks| && s.tasks[i].status == Live && s.tasks[i].job == Probe { ProbeKeeps(s, i, Alive(answer)); }
    case _ => if s.call.Idle? { CallKeeps(s, step); }
  }

  lemma {:induction false} RunKeeps(s: State, steps: seq<Step>)
    requires Inv(s)
    ensures Inv(RunFrom(s, steps))
    decreases |steps|
  {
    if steps != [] {
      StepKeeps(s, steps[0]);
      RunKeeps(Next(s, steps[0]), steps[1..]);
    }
  }

  lemma {:induction false} RunInv(steps: seq<Step>)
    ensures Inv(Run(steps))
  {
    RunKeeps(FRESH, steps);
  }

  // ── Theorems ─────────────────────────────────────────────────────────────────────────────────

  /** Between calls the two slots hold the same lifecycle, or neither holds one. */
  lemma {:induction false} SlotsAgree(steps: seq<Step>)
    requires Run(steps).call.Idle?
    ensures Run(steps).handle == Run(steps).runtime
  {
    RunInv(steps);
  }

  /** The event contract, at every position of every log: a start returns a port exactly when it
      announced that port after binding it; at most one verdict per lifecycle, only after its
      `connected`; no task of an ended lifecycle is ever heard again. */
  lemma {:induction false} EventContract(steps: seq<Step>, j: nat)
    requires j < |Run(steps).log|
    ensures Legal(Run(steps).log[..j], Run(steps).log[j])
  {
    RunInv(steps);
  }

  /** With fewer verdicts than probes, some probe has not answered. */
  lemma {:induction false} Unanswered(tasks: seq<Task>, l: nat) returns (i: nat)
    requires Finished(tasks, l) < Probes(tasks, l)
    ensures i < |tasks| && tasks[i].job == Probe && tasks[i].life == l && tasks[i].status != Done
  {
    i := |tasks| - 1;
    if !(tasks[i].job == Probe && tasks[i].life == l && tasks[i].status != Done) { i := Unanswered(tasks[..i], l); }
  }

  ghost predicate Pending(s: State, l: nat, i: int)
  {
    0 <= i < |s.tasks| && s.tasks[i] == Task(l, Probe, Live)
  }

  /** While the daemon is up and no call is in progress: without a relay host there is neither probe
      nor verdict; with one, its verdict is in the log once, or exactly one probe, still running,
      has yet to give it. */
  lemma {:induction false} VerdictDue(steps: seq<Step>)
    requires Run(steps).call.Idle? && Run(steps).handle.Some?
    ensures var s := Run(steps); var l := s.handle.value;
      && Probes(s.tasks, l) == (if s.hosted then 1 else 0)
      && Verdicts(s.log, l) <= Probes(s.tasks, l)
      && (s.hosted ==> (Verdicts(s.log, l) == 0 <==> exists i :: Pending(s, l, i)))
  {
    RunInv(steps);
    var s := Run(steps);
    var l := s.handle.value;
    FinishedAreProbes(s.tasks, l);
    if s.hosted && Verdicts(s.log, l) == 0 {
      var i := Unanswered(s.tasks, l);
      assert Pending(s, l, i);
    }
    if i :| Pending(s, l, i) { Unfinished(s.tasks, i); }
  }

  /** A start that fails once it has a runtime, whatever its code, leaves no daemon and no task
      behind; one refused before that is refused for a configuration that does not parse, or because
      a daemon is up. */
  lemma {:induction false} FailedStart(steps: seq<Step>)
    requires Run(steps).call.Returning? && Run(steps).call.code <= 0
    ensures var s := Run(steps); var code := s.call.code;
      if s.call.booted then
        && Undone(code) && s.handle == s.runtime == None
        && forall i :: 0 <= i < |s.tasks| ==> s.tasks[i].status != Live
      else
        && s.handle == s.runtime
        && (code == ERR_BAD_CONFIG || (code == ERR_ALREADY_RUNNING && s.handle.Some?))
  {
    RunInv(steps);
  }

  /** A refused start touches neither the daemon nor its tasks. */
  lemma {:induction false} RefusedStart(s: State, parses: bool, host: bool)
    requires s.call.Idle? && (parses ==> s.handle.Some?)
    ensures var begun := Next(s, BeginStart(parses, host));
      var t := if parses then Next(Next(begun, CallStep(Go)), CallStep(Go)) else Next(begun, CallStep(Go));
      && t == s.(calls := s.calls + 1, log := t.log)
      && t.log == s.log + [Failed(s.calls)]
                  + [StartReturned(s.calls, if parses then ERR_ALREADY_RUNNING else ERR_BAD_CONFIG)]
  {
  }

  /** A start of which every step goes well. */
  function Launch(host: bool, port: int): seq<Step>
  {
    [BeginStart(true, host), CallStep(Go), CallStep(Go), CallStep(Bind(port)), CallStep(Go), CallStep(Go), CallStep(Go),
     CallStep(Go), CallStep(Go)]
  }

  function LaunchEvents(n: nat, port: int): seq<Entry>
  {
    [Bootstrapping(n, 1), Bound(n, port), Connected(n, port), StartReturned(n, port)]
  }

  lemma {:induction false} RunTail(s: State, steps: seq<Step>, k: nat)
    requires k < |steps|
    ensures RunFrom(s, steps[k..]) == RunFrom(Next(s, steps[k]), steps[k + 1..])
  {
    assert steps[k..][1..] == steps[k + 1..];
  }

  /** From any state between calls with no daemon up, however it came about, a start can succeed. */
  lemma {:induction false} Startable(s: State, host: bool, port: int)
    requires Inv(s) && s.call.Idle? && s.handle == None && 0 < port < 65536
    ensures var t := RunFrom(s, Launch(host, port));
      && t.call.Idle? && t.handle == t.runtime == Some(s.calls)
      && t.log == s.log + LaunchEvents(s.calls, port)
      && Probes(t.tasks, s.calls) == (if host then 1 else 0)
  {
    LaunchEnds(s, host, port);
    RunKeeps(s, Launch(host, port));
  }

  lemma {:induction false} LaunchEnds(s: State, host: bool, port: int)
    requires s.call.Idle? && s.handle == None && 0 < port < 65536
    ensures var t := RunFrom(s, Launch(host, port));
      && t.call.Idle? && t.handle == t.runtime == Some(s.calls) && t.hosted == host
      && t.log == s.log + LaunchEvents(s.calls, port)
  {
    LaunchRuns(s, host, port);
    LaunchBoots(s, host, port);
    LaunchAnnounces(Booted(s, host, port));
    LaunchReturns(Settled(Booted(s, host, port)));
  }

  /** The state in which a launch publishes its handle. */
  function Booted(s: State, host: bool, port: int): State
  {
    s.(call := Publishing(s.calls, host, port), calls := s.calls + 1, gate := false, hosted := false,
       log := s.log + [Bootstrapping(s.calls, 1)] + [Bound(s.calls, port)])
  }

  lemma {:induction false} LaunchBoots(s: State, host: bool, port: int)
    requires s.call.Idle? && s.handle == None && 0 < port < 65536
    ensures var g := CallStep(Go);
      Next(Next(Next(Next(s, BeginStart(true, host)), g), g), CallStep(Bind(port))) == Booted(s, host, port)
  {
  }

  /** Three steps on: published, announced and, if there is a host, verifying. */
  function Settled(s: State): State
  {
    Next(Next(Next(s, CallStep(Go)), CallStep(Go)), CallStep(Go))
  }

  lemma {:induction false} LaunchAnnounces(s: State)
    requires s.call.Publishing?
    ensures var t := Settled(s); var n := s.call.n;
      && t.call == Settling(n, s.call.port) && t.handle == Some(n) && t.hosted == s.call.host
      && t.log == s.log + [Connected(n, s.call.port)]
  {
    var n, host, port := s.call.n, s.call.host, s.call.port;
    var announced := Next(Next(s, CallStep(Go)), CallStep(Go));
    assert announced == s.(call := Verifying(n, host, port), handle := Some(n), log := s.log + [Connected(n, port)]);
  }

  lemma {:induction false} LaunchReturns(s: State)
    requires s.call.Settling? && s.handle == Some(s.call.n)
    ensures var t := Next(Next(s, CallStep(Go)), CallStep(Go)); var n := s.call.n;
      && t.call.Idle? && t.handle == t.runtime == Some(n) && t.hosted == s.hosted
      && t.log == s.log + [StartReturned(n, s.call.code)]
  {
  }

  lemma {:induction false} LaunchRuns(s: State, host: bool, port: int)
    ensures var g := CallStep(Go);
      var bound := Next(Next(Next(Next(s, BeginStart(true, host)), g), g), CallStep(Bind(port)));
      RunFrom(s, Launch(host, port)) == Next(Next(Next(Next(Next(bound, g), g), g), g), g)
  {
    var steps, g := Launch(host, port), CallStep(Go);
    assert steps[0..] == steps;
    RunTail(s, steps, 0);
    var s1 := Next(s, steps[0]); RunTail(s1, steps, 1);
    var s2 := Next(s1, g); RunTail(s2, steps, 2);
    var s3 := Next(s2, g); RunTail(s3, steps, 3);
    var s4 := Next(s3, steps[3]); RunTail(s4, steps, 4);
    var s5 := Next(s4, g); RunTail(s5, steps, 5);
    var s6 := Next(s5, g); RunTail(s6, steps, 6);
    var s7 := Next(s6, g); RunTail(s7, steps, 7);
    var s8 := Next(s7, g); RunTail(s8, steps, 8);
  }
}
