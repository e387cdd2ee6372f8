/** What install-auth and stop do, from their arguments and whatever the background tasks do meanwhile. */
module LifecycleCalls {
  import opened Common
  import opened Lifecycle
  import opened LifecycleSafety
  import P = Probe

  predicate IsTask(step: Step) { step.PumpStep? || step.ProbeStep? }

  ghost predicate Noise(steps: seq<Step>) { forall k :: 0 <= k < |steps| ==> IsTask(steps[k]) }

  ghost predicate AllNoise(noise: seq<seq<Step>>) { forall k :: 0 <= k < |noise| ==> Noise(noise[k]) }

  /** What the tasks do not touch. */
  datatype Slots = Slots(call: Call, handle: Option<nat>, runtime: Option<nat>, gate: bool, hosted: bool, calls: nat)

  function SlotsOf(s: State): Slots { Slots(s.call, s.handle, s.runtime, s.gate, s.hosted, s.calls) }

  lemma {:induction false} NoiseKeeps(s: State, noise: seq<Step>)
    requires Noise(noise)
    ensures SlotsOf(RunFrom(s, noise)) == SlotsOf(s)
    decreases |noise|
  {
    if noise != [] {
      assert IsTask(noise[0]);
      assert SlotsOf(Next(s, noise[0])) == SlotsOf(s);
      NoiseKeeps(Next(s, noise[0]), noise[1..]);
    }
  }

  /** A step of a call, after any number of steps of the tasks. */
  function After(s: State, noise: seq<Step>, step: Step): State { Next(RunFrom(s, noise), step) }

  const GO := CallStep(Go)

  /** A call of six steps. */
  function Woven(s: State, noise: seq<seq<Step>>, begin: Step): State
    requires |noise| == 6
  {
    var s3 := After(After(After(s, noise[0], begin), noise[1], GO), noise[2], GO);
    After(After(After(s3, noise[3], GO), noise[4], GO), noise[5], GO)
  }

  lemma {:induction false} AfterKeeps(s: State, noise: seq<Step>, step: Step)
    requires Inv(s)
    ensures Inv(After(s, noise, step))
  {
    RunKeeps(s, noise);
    StepKeeps(RunFrom(s, noise), step);
  }

  lemma {:induction false} WovenKeeps(s: State, noise: seq<seq<Step>>, begin: Step)
    requires Inv(s) && |noise| == 6
    ensures Inv(Woven(s, noise, begin))
  {
    AfterKeeps(s, noise[0], begin);
    var s1 := After(s, noise[0], begin);
    AfterKeeps(s1, noise[1], GO);
    var s2 := After(s1, noise[1], GO);
    AfterKeeps(s2, noise[2], GO);
    var s3 := After(s2, noise[2], GO);
    AfterKeeps(s3, noise[3], GO);
    var s4 := After(s3, noise[3], GO);
    AfterKeeps(s4, noise[4], GO);
    AfterKeeps(After(s4, noise[4], GO), noise[5], GO);
  }

  function Last(log: seq<Entry>): Option<Entry> { if log == [] then None else Some(log[|log| - 1]) }

  // ── Install-auth ─────────────────────────────────────────────────────────────────────────────

  lemma {:induction false} InstallBegins(s: State, noise: seq<Step>)
    requires Noise(noise) && s.call.Idle?
    ensures SlotsOf(After(s, noise, BeginInstall(true, true, true)))
            == SlotsOf(s).(call := Looking(s.calls, true), calls := s.calls + 1)
  {
    NoiseKeeps(s, noise);
  }

  lemma {:induction false} InstallLooks(s: State, noise: seq<Step>)
    requires Noise(noise) && s.call.Looking? && s.handle.Some?
    ensures SlotsOf(After(s, noise, GO)) == SlotsOf(s).(call := Installing(s.call.n, s.handle.value, s.call.host))
  {
    NoiseKeeps(s, noise);
  }

  lemma {:induction false} InstallWrites(s: State, noise: seq<Step>)
    requires Noise(noise) && s.call.Installing? && s.call.host
    ensures SlotsOf(After(s, noise, GO)) == SlotsOf(s).(call := Entering(s.call.n, s.call.life))
  {
    NoiseKeeps(s, noise);
  }

  lemma {:induction false} InstallEnters(s: State, noise: seq<Step>)
    requires Noise(noise) && s.call.Entering? && s.runtime.Some?
    ensures SlotsOf(After(s, noise, GO)) == SlotsOf(s).(call := Spawning(s.call.n, s.runtime.value))
  {
    NoiseKeeps(s, noise);
  }

  lemma {:induction false} InstallSpawns(s: State, noise: seq<Step>)
    requires Noise(noise) && s.call.Spawning?
    ensures SlotsOf(After(s, noise, GO)) == SlotsOf(s).(call := Replying(s.call.n, 0), gate := true, hosted := true)
  {
    NoiseKeeps(s, noise);
  }

  lemma {:induction false} InstallReplies(s: State, noise: seq<Step>)
    requires Noise(noise) && s.call.Replying?
    ensures var t := After(s, noise, GO);
      SlotsOf(t) == SlotsOf(s).(call := Idle) && Last(t.log) == Some(InstallReturned(s.call.n, s.call.code))
  {
    NoiseKeeps(s, noise);
  }

  lemma {:induction false} InstallSlots(s: State, noise: seq<seq<Step>>)
    requires s.call.Idle? && s.handle.Some? && s.runtime == s.handle && |noise| == 6 && AllNoise(noise)
    ensures var t := Woven(s, noise, BeginInstall(true, true, true));
      && SlotsOf(t) == SlotsOf(s).(gate := true, hosted := true, calls := s.calls + 1)
      && Last(t.log) == Some(InstallReturned(s.calls, 0))
  {
    assert forall k :: 0 <= k < 6 ==> Noise(noise[k]);
    InstallBegins(s, noise[0]);
    var s1 := After(s, noise[0], BeginInstall(true, true, true));
    InstallLooks(s1, noise[1]);
    var s2 := After(s1, noise[1], GO);
    InstallWrites(s2, noise[2]);
    var s3 := After(s2, noise[2], GO);
    InstallEnters(s3, noise[3]);
    var s4 := After(s3, noise[3], GO);
    InstallSpawns(s4, noise[4]);
    InstallReplies(After(s4, noise[4], GO), noise[5]);
  }

  /** Installing with a relay host, on a running daemon: it returns 0 and the lifecycle has its one
      probe, whatever the tasks do meanwhile and whether or not it had one before. */
  lemma {:induction false} InstallVerifies(s: State, noise: seq<seq<Step>>)
    requires Inv(s) && s.call.Idle? && s.handle.Some? && |noise| == 6 && AllNoise(noise)
    ensures var t := Woven(s, noise, BeginInstall(true, true, true)); var l := s.handle.value;
      && t.call.Idle? && t.handle == t.runtime == Some(l)
      && Last(t.log) == Some(InstallReturned(s.calls, 0))
      && Probes(t.tasks, l) == 1
  {
    InstallSlots(s, noise);
    WovenKeeps(s, noise, BeginInstall(true, true, true));
  }

  /** An install that cannot be carried out says why, and changes nothing else. */
  lemma {:induction false} InstallRefused(s: State, parses: bool, valid: bool, host: bool)
    requires s.call.Idle? && !(parses && valid && s.handle.Some?)
    ensures var begun := Next(s, BeginInstall(parses, valid, host));
      var t := if parses && valid then Next(Next(begun, GO), GO) else Next(begun, GO);
      && t == s.(calls := s.calls + 1, log := t.log)
      && t.log == s.log + (if parses && valid then [] else [Failed(s.calls)])
                  + [InstallReturned(s.calls, if !parses then ERR_BAD_CONFIG
                                              else if !valid then ERR_ONION_AUTH else ERR_NOT_RUNNING)]
  {
    assert s.log + [] == s.log;
  }

  /** A keystore that refuses fails the install, which then asks for no verification. */
  lemma {:induction false} InstallFails(s: State, host: bool, code: int)
    requires s.call.Idle? && s.handle.Some?
    ensures var t := Next(Next(Next(Next(s, BeginInstall(true, true, host)), GO), CallStep(Fail(code))), GO);
      && t == s.(calls := s.calls + 1, log := t.log)
      && t.log == s.log + [Failed(s.calls)] + [InstallReturned(s.calls, ERR_ONION_AUTH)]
  {
  }

  /** Without a relay host an install returns 0 and asks for nothing either. */
  lemma {:induction false} InstallWithoutHost(s: State)
    requires s.call.Idle? && s.handle.Some?
    ensures var t := Next(Next(Next(Next(s, BeginInstall(true, true, false)), GO), GO), GO);
      t == s.(calls := s.calls + 1, log := s.log + [InstallReturned(s.calls, 0)])
  {
  }

  // ── Stop ─────────────────────────────────────────────────────────────────────────────────────

  lemma {:induction false} StopBegins(s: State, noise: seq<Step>)
    requires Noise(noise) && s.call.Idle?
    ensures SlotsOf(After(s, noise, BeginStop)) == SlotsOf(s).(call := Taking, calls := s.calls + 1)
  {
    NoiseKeeps(s, noise);
  }

  lemma {:induction false} StopTakes(s: State, noise: seq<Step>)
    requires Noise(noise) && s.call.Taking?
    ensures SlotsOf(After(s, noise, GO)) == SlotsOf(s).(call := Taken(s.handle), handle := None)
  {
    NoiseKeeps(s, noise);
  }

  lemma {:induction false} StopTakesRuntime(s: State, noise: seq<Step>)
    requires Noise(noise) && s.call.Taken?
    ensures SlotsOf(After(s, noise, GO)) == SlotsOf(s).(call := Draining(s.call.h, s.runtime), runtime := None)
  {
    NoiseKeeps(s, noise);
  }

  lemma {:induction false} StopDrains(s: State, noise: seq<Step>)
    requires Noise(noise) && s.call.Draining?
    ensures SlotsOf(After(s, noise, GO)) == SlotsOf(s).(call := Rearming)
  {
    NoiseKeeps(s, noise);
  }

  lemma {:induction false} StopRearms(s: State, noise: seq<Step>)
    requires Noise(noise) && s.call.Rearming?
    ensures SlotsOf(After(s, noise, GO)) == SlotsOf(s).(call := Saying, gate := false)
  {
    NoiseKeeps(s, noise);
  }

  lemma {:induction false} StopSays(s: State, noise: seq<Step>)
    requires Noise(noise) && s.call.Saying?
    ensures var t := After(s, noise, GO);
      SlotsOf(t) == SlotsOf(s).(call := Idle) && Last(t.log) == Some(Stopped(s.calls))
  {
    NoiseKeeps(s, noise);
  }

  lemma {:induction false} StopSlots(s: State, noise: seq<seq<Step>>)
    requires s.call.Idle? && |noise| == 6 && AllNoise(noise)
    ensures var t := Woven(s, noise, BeginStop);
      && SlotsOf(t) == SlotsOf(s).(handle := None, runtime := None, gate := false, calls := s.calls + 1)
      && Last(t.log) == Some(Stopped(s.calls + 1))
  {
    assert forall k :: 0 <= k < 6 ==> Noise(noise[k]);
    StopBegins(s, noise[0]);
    var s1 := After(s, noise[0], BeginStop);
    StopTakes(s1, noise[1]);
    var s2 := After(s1, noise[1], GO);
    StopTakesRuntime(s2, noise[2]);
    var s3 := After(s2, noise[2], GO);
    StopDrains(s3, noise[3]);
    var s4 := After(s3, noise[3], GO);
    StopRearms(s4, noise[4]);
    StopSays(After(s4, noise[4], GO), noise[5]);
  }

  /** A stop ends the daemon, whatever the tasks do meanwhile: both slots empty, no task alive, the gate
      open for the next lifecycle, and `stopped` the last thing heard. */
  lemma {:induction false} StopEnds(s: State, noise: seq<seq<Step>>)
    requires Inv(s) && s.call.Idle? && |noise| == 6 && AllNoise(noise)
    ensures var t := Woven(s, noise, BeginStop);
      && t.call.Idle? && t.handle == t.runtime == None && !t.gate
      && (forall i :: 0 <= i < |t.tasks| ==> t.tasks[i].status != Live)
      && Last(t.log) == Some(Stopped(s.calls + 1))
  {
    StopSlots(s, noise);
    WovenKeeps(s, noise, BeginStop);
  }

  // ── A start that fails ───────────────────────────────────────────────────────────────────────

  function FailingBoot(s: State, host: bool, code: int): State
  {
    After(After(After(After(s, [], BeginStart(true, host)), [], GO), [], GO), [], CallStep(Fail(code)))
  }

  lemma {:induction false} BootFails(s: State, host: bool, code: int)
    requires s.call.Idle? && s.handle == None && -5 <= code <= -1
    ensures FailingBoot(s, host, code) ==
      s.(call := Settling(s.calls, code), calls := s.calls + 1, gate := false, hosted := false,
         log := s.log + [Bootstrapping(s.calls, 1)] + [Failed(s.calls)])
  {
  }

  /** A boot that fails, at whichever stage, is reported as failed and returns its code; no daemon is
      up afterwards. */
  lemma {:induction false} StartFails(s: State, host: bool, code: int)
    requires Inv(s) && s.call.Idle? && s.handle == None && -5 <= code <= -1
    ensures var t := Next(Next(FailingBoot(s, host, code), GO), GO);
      && t.call.Idle? && t.handle == t.runtime == None
      && t.log == s.log + [Bootstrapping(s.calls, 1), Failed(s.calls), StartReturned(s.calls, code)]
      && forall i :: 0 <= i < |t.tasks| ==> t.tasks[i].status != Live
  {
    BootFails(s, host, code);
    var f := FailingBoot(s, host, code);
    FailingKeeps(s, host, code);
    SettlesDown(f);
    StepKeeps(f, GO);
    StepKeeps(Next(f, GO), GO);
  }

  lemma {:induction false} FailingKeeps(s: State, host: bool, code: int)
    requires Inv(s)
    ensures Inv(FailingBoot(s, host, code))
  {
    AfterKeeps(s, [], BeginStart(true, host));
    var s1 := After(s, [], BeginStart(true, host));
    AfterKeeps(s1, [], GO);
    AfterKeeps(After(s1, [], GO), [], GO);
    AfterKeeps(After(After(s1, [], GO), [], GO), [], CallStep(Fail(code)));
  }

  lemma {:induction false} SettlesDown(s: State)
    requires s.call.Settling? && s.handle == None
    ensures var t := Next(Next(s, GO), GO);
      && t.call.Idle? && t.handle == None && t.runtime == s.runtime
      && t.log == s.log + [StartReturned(s.call.n, s.call.code)]
  {
  }

  // ── The tasks ────────────────────────────────────────────────────────────────────────────────

  /** What the tasks say: the pump its percentage within 1 to 98, a probe `verified` unless its answer is that the
      transport is dead. */
  lemma {:induction false} TasksSpeak(s: State, i: nat, percent: int, answer: P.Verdict)
    requires i < |s.tasks| && s.tasks[i].status == Live
    ensures s.tasks[i].job == Pump ==>
      var shown := if percent >= 98 then 98 else if percent <= 1 then 1 else percent;
      Next(s, PumpStep(i, percent)) == s.(log := s.log + [Bootstrapping(s.tasks[i].life, shown)])
    ensures s.tasks[i].job == Probe ==>
      var t := Next(s, ProbeStep(i, answer));
      && t.log == s.log + [Verdict(s.tasks[i].life, answer == P.Reachable || answer == P.ServiceUnreachable)]
      && t.tasks[i].status == Done
  {
  }
}
