/**
 * The transport ladder: the wraparound cold walk, the guided walk past condemned rungs, and the
 * ratchet that relay failures turn.
 *
 * A ladder is a finite list. What happens at the awaits of one round of a walk (the bridge lookup,
 * the dial, the teardown) is decided by the environment and given to the walk as that round's turn.
 */
module Ladder {
  import opened Common

  // ── The cold walk ────────────────────────────────────────────────────────────────────────────

  /** One round: is a connection still wanted at each check, are there bridges, does it connect. */
  datatype Turn = Turn(wanted: bool, wantedResolved: bool, hasLines: bool, connects: bool, wantedAfter: bool)
  {
    predicate Dials() { wantedResolved && hasLines }

    /** The round fails and the walk goes on to the next tier. */
    predicate Passes() { wanted && !(wantedResolved && hasLines && connects) && wantedAfter }
  }

  datatype Act = Try(tier: nat) | Dial(tier: nat) | Teardown

  datatype End = Connected | Unwanted | Exhausted

  function Range(lo: nat, hi: nat): seq<nat>
    decreases hi - lo
  {
    if lo >= hi then [] else [lo] + Range(lo + 1, hi)
  }

  /** The tiers from `start` to the bottom of the ladder, then those above it. */
  function Rotation(n: nat, start: nat): seq<nat>
  {
    Range(start, n) + Range(0, start)
  }

  function Clamped(n: nat, startTier: int): nat
  {
    var low := if startTier < n - 1 then startTier else n - 1;
    if low < 0 then 0 else low
  }

  function Distance(a: int, b: int): nat { if a < b then b - a else a - b }

  /** The walk starts at the tier nearest to the one asked for, hence at that one if there is one. */
  lemma {:induction false} StartsNearest(n: nat, startTier: int, tier: nat)
    requires tier < n
    ensures Clamped(n, startTier) < n
    ensures Distance(Clamped(n, startTier), startTier) <= Distance(tier, startTier)
    ensures tier == startTier ==> Clamped(n, startTier) == tier
  {
    assert startTier < 0 ==> Clamped(n, startTier) == 0;
  }

  /** A tier tried in vain: looked up, dialled if it had bridges, torn down. */
  function Vain(tier: nat, turn: Turn): seq<Act>
  {
    [Try(tier)] + (if turn.Dials() then [Dial(tier)] else []) + [Teardown]
  }

  function Walked(tiers: seq<nat>, env: nat -> Turn): seq<Act>
  {
    if tiers == [] then []
    else var k := |tiers| - 1; Walked(tiers[..k], env) + Vain(tiers[k], env(k))
  }

  lemma {:induction false} RangeAt(lo: nat, hi: nat)
    requires lo <= hi
    ensures |Range(lo, hi)| == hi - lo
    ensures forall i :: 0 <= i < hi - lo ==> Range(lo, hi)[i] == lo + i
    decreases hi - lo
  {
    if lo < hi { RangeAt(lo + 1, hi); }
  }

  lemma {:induction false} Wrap(n: nat, start: nat, i: nat)
    requires start < n && i < n
    ensures (start + i) % n == if start + i < n then start + i else start + i - n
  {
  }

  /** The rotation lists every tier exactly once, and is what the source's index formula visits. */
  lemma {:induction false} RotationVisitsAll(n: nat, start: nat)
    requires start < n
    ensures var r := Rotation(n, start);
      && |r| == n
      && (forall i :: 0 <= i < n ==> r[i] == (start + i) % n)
      && (forall i, j :: 0 <= i < j < n ==> r[i] != r[j])
      && (forall t: nat :: t in r <==> t < n)
  {
    RangeAt(start, n);
    RangeAt(0, start);
    var r := Rotation(n, start);
    forall i | 0 <= i < n
      ensures r[i] == (start + i) % n
    {
      Wrap(n, start, i);
    }
    forall t: nat | t < n
      ensures t in r
    {
      assert r[if t >= start then t - start else n - start + t] == t;
    }
  }

  /** The acts of the round that ended the walk. */
  function Last(tier: nat, turn: Turn): seq<Act>
  {
    if !turn.wanted then [] else [Try(tier)] + if turn.Dials() then [Dial(tier)] else []
  }

  /** `coldConnect`: `k` rounds passed in vain; the next one, if any, ended the walk. */
  method ColdConnect(n: nat, startTier: int, env: nat -> Turn) returns (trace: seq<Act>, end: End, k: nat)
    ensures n == 0 ==> trace == [] && end == Exhausted
    ensures n > 0 ==>
      var r := Rotation(n, Clamped(n, startTier));
      && k <= |r| == n
      && (forall j: nat :: j < k ==> env(j).Passes())
      && (k < n ==> !env(k).Passes())
      && trace == Walked(r[..k], env) + (if k < n then Last(r[k], env(k)) else [])
      && end == (if k == n then Exhausted
                 else if env(k).wanted && env(k).wantedResolved && env(k).hasLines && env(k).connects then Connected
                 else Unwanted)
  {
    trace, k := [], 0;
    if n == 0 { end := Exhausted; return; }
    var start := Clamped(n, startTier);
    ghost var r := Rotation(n, start);
    RotationVisitsAll(n, start);
    while k < n
      invariant k <= n
      invariant forall j: nat :: j < k ==> env(j).Passes()
      invariant trace == Walked(r[..k], env)
    {
      LastActs(trace, r[k], env(k));
      if !env(k).wanted { end := Unwanted; return; }
      var tier := (start + k) % n;
      trace := trace + [Try(tier)];
      var dials := env(k).wantedResolved && env(k).hasLines;
      if dials { trace := trace + [Dial(tier)]; }
      if dials && env(k).connects { end := Connected; return; }
      if !env(k).wantedAfter { end := Unwanted; return; }
      trace := trace + [Teardown];
      WalkedMore(r, k, env);
      k := k + 1;
    }
    assert r[..n] == r;
    end := Exhausted;
  }

  lemma {:induction false} LastActs(w: seq<Act>, tier: nat, turn: Turn)
    ensures w + Last(tier, turn) ==
      if !turn.wanted then w
      else if turn.wantedResolved && turn.hasLines then w + [Try(tier)] + [Dial(tier)] else w + [Try(tier)]
  {
  }

  lemma {:induction false} WalkedMore(r: seq<nat>, k: nat, env: nat -> Turn)
    requires k < |r| && env(k).wanted
    ensures Walked(r[..k + 1], env) == Walked(r[..k], env) + Last(r[k], env(k)) + [Teardown]
  {
    assert r[..k + 1][..k] == r[..k];
  }

  function Tries(trace: seq<Act>): seq<nat>
  {
    if trace == [] then []
    else Tries(trace[..|trace| - 1]) + (var a := trace[|trace| - 1]; if a.Try? then [a.tier] else [])
  }

  function Teardowns(trace: seq<Act>): nat
  {
    if trace == [] then 0 else Teardowns(trace[..|trace| - 1]) + if trace[|trace| - 1].Teardown? then 1 else 0
  }

  function Dials(trace: seq<Act>): seq<nat>
  {
    if trace == [] then []
    else Dials(trace[..|trace| - 1]) + (var a := trace[|trace| - 1]; if a.Dial? then [a.tier] else [])
  }

  /** The tiers for which bridges were found while a connection was still wanted. */
  function Equipped(tiers: seq<nat>, env: nat -> Turn): seq<nat>
  {
    if tiers == [] then []
    else
      var k := |tiers| - 1;
      Equipped(tiers[..k], env) + if env(k).wantedResolved && env(k).hasLines then [tiers[k]] else []
  }

  lemma {:induction false} OneMore(trace: seq<Act>, a: Act)
    ensures Tries(trace + [a]) == Tries(trace) + if a.Try? then [a.tier] else []
    ensures Dials(trace + [a]) == Dials(trace) + if a.Dial? then [a.tier] else []
    ensures Teardowns(trace + [a]) == Teardowns(trace) + if a.Teardown? then 1 else 0
  {
    assert (trace + [a])[..|trace|] == trace;
  }

  lemma {:induction false} VainTries(w: seq<Act>, tier: nat, turn: Turn)
    ensures Tries(w + Vain(tier, turn)) == Tries(w) + [tier]
    ensures Dials(w + Vain(tier, turn)) == Dials(w) + if turn.wantedResolved && turn.hasLines then [tier] else []
    ensures Teardowns(w + Vain(tier, turn)) == Teardowns(w) + 1
  {
    var dialled := turn.wantedResolved && turn.hasLines;
    var tried := w + [Try(tier)];
    var done := if dialled then tried + [Dial(tier)] else tried;
    OneMore(w, Try(tier));
    if dialled { OneMore(tried, Dial(tier)); }
    OneMore(done, Teardown);
    VainActs(w, tier, turn);
  }

  lemma {:induction false} VainActs(w: seq<Act>, tier: nat, turn: Turn)
    ensures var tried := w + [Try(tier)];
      w + Vain(tier, turn) ==
        (if turn.wantedResolved && turn.hasLines then tried + [Dial(tier)] else tried) + [Teardown]
  {
  }

  /** A walk in vain tries exactly its tiers, in order, dials those it has bridges for, and tears each
      down before the next. */
  lemma {:induction false} WalkedTries(tiers: seq<nat>, env: nat -> Turn)
    ensures Tries(Walked(tiers, env)) == tiers
    ensures Dials(Walked(tiers, env)) == Equipped(tiers, env)
    ensures Teardowns(Walked(tiers, env)) == |tiers|
  {
    if tiers != [] {
      var k := |tiers| - 1;
      var before := Walked(tiers[..k], env);
      WalkedTries(tiers[..k], env);
      VainTries(before, tiers[k], env(k));
      assert Walked(tiers, env) == before + Vain(tiers[k], env(k));
      assert tiers[..k] + [tiers[k]] == tiers;
    }
  }

  // ── The ratchet ──────────────────────────────────────────────────────────────────────────────

  datatype Tiers = Tiers(start: int, active: int)
  {
    function NextTier(): int { if active + 1 > 0 then active + 1 else 0 }

    predicate Escalates(n: nat, condemned: bool) { condemned && NextTier() < n && NextTier() > start }

    function Down(n: nat, condemned: bool): Tiers
    {
      if Escalates(n, condemned) then this.(start := NextTier()) else this
    }
  }

  class TierState {
    var bridgeStartTier: int
    var activeTier: int

    function View(): Tiers
      reads this
    {
      Tiers(bridgeStartTier, activeTier)
    }

    /** The escalation test of `onRelayDown`; the caller then restarts Tor. */
    method OnRelayDown(n: nat, condemned: bool) returns (escalated: bool)
      modifies this
      ensures escalated <==> condemned && old(bridgeStartTier) < View().NextTier() < n
      ensures View() == old(View()).Down(n, condemned)
    {
      var nextTier := if activeTier + 1 > 0 then activeTier + 1 else 0;
      escalated := condemned && nextTier < n && nextTier > bridgeStartTier;
      if escalated { bridgeStartTier := nextTier; }
    }
  }

  /** `Landed`: some transport connected. `DirectDead`: the reach verdict on direct Tor. `Reset`: a
      network change or newly applied preferences. */
  datatype Event = RelayDown(condemned: bool) | Landed(tier: int) | DirectDead | Reset

  function After(t: Tiers, n: nat, e: Event): Tiers
  {
    match e
    case RelayDown(condemned) => t.Down(n, condemned)
    case Landed(tier) => t.(active := tier)
    case DirectDead => t.(start := if t.start > 0 then t.start else 0)
    case Reset => t.(start := -1)
  }

  function AfterAll(t: Tiers, n: nat, events: seq<Event>): Tiers
    decreases |events|
  {
    if events == [] then t else AfterAll(After(t, n, events[0]), n, events[1..])
  }

  function Escalations(t: Tiers, n: nat, events: seq<Event>): nat
    decreases |events|
  {
    if events == [] then 0
    else (if events[0].RelayDown? && t.Escalates(n, events[0].condemned) then 1 else 0)
         + Escalations(After(t, n, events[0]), n, events[1..])
  }

  /** Between resets the start tier never falls and each escalation raises it, so a ladder of n
      tiers sees at most n of them, whatever connects in between. */
  lemma {:induction false} RatchetTurns(t: Tiers, n: nat, events: seq<Event>)
    requires n > 0 && -1 <= t.start < n && Reset !in events
    ensures Escalations(t, n, events) <= AfterAll(t, n, events).start - t.start
    ensures t.start <= AfterAll(t, n, events).start < n
    ensures Escalations(t, n, events) <= n
    decreases |events|
  {
    if events != [] { RatchetTurns(After(t, n, events[0]), n, events[1..]); }
  }

  /** A condemned relay raises the start to the tier right below the active one, if there is one and
      the start is not already past it; nothing else happens to the tiers. */
  lemma {:induction false} EscalatesPastActive(t: Tiers, n: nat, condemned: bool)
    requires t.active >= -1
    ensures After(t, n, RelayDown(condemned)) ==
      Tiers(if condemned && t.start <= t.active < n - 1 then t.active + 1 else t.start, t.active)
  {
  }

  /** Direct Tor is where the walks start exactly as long as, since the last reset, it was not found
      dead and nothing was escalated. */
  lemma {:induction false} DirectUntilDead(t: Tiers, n: nat, events: seq<Event>)
    requires n > 0 && -1 <= t.start < n && Reset !in events
    ensures AfterAll(After(t, n, Reset), n, events).start < 0 <==>
      DirectDead !in events && Escalations(After(t, n, Reset), n, events) == 0
  {
    StartsDirect(After(t, n, Reset), n, events);
  }

  lemma {:induction false} StartsDirect(t: Tiers, n: nat, events: seq<Event>)
    requires n > 0 && t.start == -1 && Reset !in events
    ensures AfterAll(t, n, events).start < 0 <==> DirectDead !in events && Escalations(t, n, events) == 0
    decreases |events|
  {
    if events != [] {
      var u, rest := After(t, n, events[0]), events[1..];
      assert events == [events[0]] + rest;
      if u.start == -1 { StartsDirect(u, n, rest); } else { RatchetTurns(u, n, rest); }
    }
  }

  /** Each tier in turn connects and is condemned. */
  function Descent(k: nat, n: nat): seq<Event>
    decreases n - k
  {
    if k >= n then [] else [Landed(k - 1), RelayDown(true)] + Descent(k + 1, n)
  }

  /** The bound is met, no tier being skipped: such a descent escalates once per tier. */
  lemma {:induction false} DescentTurns(t: Tiers, k: nat, n: nat)
    requires k <= n && t.start == k - 1
    ensures Escalations(t, n, Descent(k, n)) == n - k
    ensures AfterAll(t, n, Descent(k, n)).start == n - 1
    decreases n - k
  {
    if k < n {
      var events, rest := Descent(k, n), Descent(k + 1, n);
      var landed := t.(active := k - 1);
      assert events[1..] == [RelayDown(true)] + rest && events[1..][1..] == rest;
      assert After(t, n, events[0]) == landed && After(landed, n, RelayDown(true)) == landed.(start := k);
      assert Escalations(landed, n, events[1..]) == 1 + Escalations(landed.(start := k), n, rest);
      DescentTurns(landed.(start := k), k + 1, n);
    }
  }

  // ── The guided walk ──────────────────────────────────────────────────────────────────────────

  datatype Rung = Rung(transport: string, fetched: bool)

  /** One round of the guided walk. The condemned set is shared: `dead` is what the round's check
      sees, `deadAtDial` what it has become when the dial starts, `deadAfter` when the round is over. */
  datatype Round = Round(
    wanted: bool, dead: set<string>, wantedResolved: bool, hasLines: bool, deadAtDial: set<string>,
    connects: bool, wantedAfter: bool, wantedTorn: bool, deadAfter: set<string>)

  /** Only a fetched rung awaits between its check and its dial. */
  ghost predicate Feasible(ladder: seq<Rung>, env: nat -> Round)
  {
    forall i: nat :: i < |ladder| && !ladder[i].fetched ==>
      env(i).deadAtDial == env(i).dead && (env(i).wanted ==> env(i).wantedResolved)
  }

  predicate Offers(ladder: seq<Rung>, i: nat, r: Round)
    requires i < |ladder|
  {
    r.wantedResolved && (ladder[i].transport == "direct" || r.hasLines)
  }

  /** A warm start (no index) or a dial of a rung, with the set condemned at that moment. */
  datatype Dialled = Warm(transport: string, dead: set<string>) | Cold(index: nat, transport: string, dead: set<string>)

  /** The warm start. `startTier` is what its check sees: the cold walk reads the tier again later. */
  datatype WarmTurn = WarmTurn(
    cached: Option<string>, startTier: int, dead: set<string>, wanted: bool, connects: bool, wantedAfter: bool,
    wantedTorn: bool, deadAfter: set<string>)

  /** The cached transport, unless it was escalated past or condemned. */
  function WarmChoice(w: WarmTurn): Option<string>
  {
    match w.cached
    case None => None
    case Some(t) => if (w.startTier >= 0 && t == "direct") || t in w.dead || !w.wanted then None else Some(t)
  }

  function NextRung(i: nat, total: nat): int { if i + 1 < total then i + 1 else -1 }

  /** What a walk dialled, how it ended, and the condemned set it left. */
  datatype Walk = Walk(dials: seq<Dialled>, end: End, dead: set<string>)
  {
    function After(d: Dialled): Walk { this.(dials := [d] + dials) }
  }

  /** The rounds of the cold walk from rung `i` on. */
  function Rounds(ladder: seq<Rung>, i: nat, env: nat -> Round): Walk
    requires i <= |ladder|
    decreases |ladder| - i
  {
    if i == |ladder| then Walk([], Exhausted, {})
    else
      var r := env(i);
      if !r.wanted then Walk([], Unwanted, r.dead)
      else if ladder[i].transport in r.dead then Rounds(ladder, i + 1, env)
      else if !r.wantedResolved then Walk([], Unwanted, r.deadAtDial)
      else if !Offers(ladder, i, r) then Rounds(ladder, i + 1, env)
      else
        var d := Cold(i, ladder[i].transport, r.deadAtDial);
        if r.connects then Walk([d], Connected, r.deadAfter)
        else if !r.wantedAfter || !r.wantedTorn then Walk([d], Unwanted, r.deadAfter)
        else Rounds(ladder, i + 1, env).After(d)
  }

  function FromRung(startTier: int): nat { if startTier < 0 then 0 else 1 }

  /** `startTier` is the tier as the cold walk reads it, after the awaits of the warm start. */
  function Guided(ladder: seq<Rung>, warm: WarmTurn, startTier: int, env: nat -> Round): Walk
    requires |ladder| >= 2
  {
    match WarmChoice(warm)
    case None => Rounds(ladder, FromRung(startTier), env)
    case Some(t) =>
      var d := Warm(t, warm.dead);
      if warm.connects then Walk([d], Connected, warm.deadAfter)
      else if !warm.wantedAfter || !warm.wantedTorn then Walk([d], Unwanted, warm.deadAfter)
      else Rounds(ladder, FromRung(startTier), env).After(d)
  }

  ghost predicate Completes(dials: seq<Dialled>, rest: Walk, all: Walk)
  {
    dials + rest.dials == all.dials && rest.end == all.end && rest.dead == all.dead
  }

  /** `connectGuided` in automatic mode. */
  method ConnectGuided(ladder: seq<Rung>, warm: WarmTurn, startTier: int, env: nat -> Round)
    returns (dials: seq<Dialled>, end: End, deadRungs: set<string>)
    requires |ladder| >= 2
    ensures Walk(dials, end, deadRungs) == Guided(ladder, warm, startTier, env)
  {
    dials := [];
    var choice := WarmChoice(warm);
    if choice.Some? {
      dials, deadRungs := [Warm(choice.value, warm.dead)], warm.deadAfter;
      if warm.connects { end := Connected; return; }
      if !warm.wantedAfter || !warm.wantedTorn { end := Unwanted; return; }
    }
    var i: int := if startTier < 0 then 0 else 1;
    assert [] + Rounds(ladder, i, env).dials == Rounds(ladder, i, env).dials;
    while i != -1
      invariant i == -1 || 0 <= i < |ladder|
      invariant var rest := Rounds(ladder, if i == -1 then |ladder| else i, env);
        Completes(dials, rest, Guided(ladder, warm, startTier, env))
      decreases if i == -1 then 0 else |ladder| - i
    {
      assert dials + [] == dials;
      var r := env(i);
      deadRungs := r.dead;
      if !r.wanted { end := Unwanted; return; }
      var rung := ladder[i];
      if rung.transport !in deadRungs {
        deadRungs := r.deadAtDial;
        if !r.wantedResolved { end := Unwanted; return; }
        if rung.transport == "direct" || r.hasLines {
          Assoc(dials, Cold(i, rung.transport, deadRungs), Rounds(ladder, i + 1, env).dials);
          dials := dials + [Cold(i, rung.transport, deadRungs)];
          deadRungs := r.deadAfter;
          if r.connects { end := Connected; return; }
          if !r.wantedAfter || !r.wantedTorn { end := Unwanted; return; }
        }
      }
      i := NextRung(i, |ladder|);
    }
    assert dials + [] == dials;
    deadRungs, end := {}, Exhausted;
  }

  lemma {:induction false} Assoc(a: seq<Dialled>, d: Dialled, b: seq<Dialled>)
    ensures a + ([d] + b) == (a + [d]) + b
  {
  }

  // ── What a guided walk dials ─────────────────────────────────────────────────────────────────

  ghost predicate Ascending(dials: seq<Dialled>)
  {
    forall i, j :: 0 <= i < j < |dials| ==> dials[j].Cold? && (dials[i].Cold? ==> dials[i].index < dials[j].index)
  }

  /** The dial rests on a check that did not find its transport condemned, and on bridges if it needs
      any, with the connection still wanted. */
  ghost predicate Cleared(ladder: seq<Rung>, env: nat -> Round, d: Dialled)
  {
    match d
    case Warm(t, dead) => t !in dead
    case Cold(i, t, dead) =>
      && i < |ladder| && t == ladder[i].transport && t !in env(i).dead && dead == env(i).deadAtDial
      && env(i).wanted && env(i).wantedResolved && (t == "direct" || env(i).hasLines)
  }

  ghost predicate Succeeds(warm: WarmTurn, env: nat -> Round, d: Dialled)
  {
    match d
    case Warm(t, dead) => warm.connects
    case Cold(i, t, dead) => env(i).connects
  }

  /** The dial failed and its teardown ended with the connection still wanted. */
  ghost predicate InVain(warm: WarmTurn, env: nat -> Round, d: Dialled)
  {
    match d
    case Warm(t, dead) => !warm.connects && warm.wantedAfter && warm.wantedTorn
    case Cold(i, t, dead) => !env(i).connects && env(i).wantedAfter && env(i).wantedTorn
  }

  /** Every dial but the last was in vain; the last one succeeded if and only if the walk did. */
  ghost predicate Settled(warm: WarmTurn, env: nat -> Round, dials: seq<Dialled>, end: End)
  {
    && (forall k :: 0 <= k < |dials| - 1 ==> InVain(warm, env, dials[k]))
    && (end == Connected <==> dials != [] && Succeeds(warm, env, dials[|dials| - 1]))
    && (end == Exhausted ==> forall k :: 0 <= k < |dials| ==> InVain(warm, env, dials[k]))
  }

  lemma {:induction false} PrependSettled(
    warm: WarmTurn, env: nat -> Round, d: Dialled, rest: seq<Dialled>, end: End)
    requires InVain(warm, env, d) && Settled(warm, env, rest, end)
    ensures Settled(warm, env, [d] + rest, end)
  {
    var all := [d] + rest;
    assert forall k :: 0 < k < |all| ==> all[k] == rest[k - 1];
    assert rest != [] ==> all[|all| - 1] == rest[|rest| - 1];
  }

  lemma {:induction false} RoundsSettled(ladder: seq<Rung>, i: nat, warm: WarmTurn, env: nat -> Round)
    requires i <= |ladder|
    ensures var w := Rounds(ladder, i, env); Settled(warm, env, w.dials, w.end)
    decreases |ladder| - i
  {
    if i < |ladder| {
      RoundsSettled(ladder, i + 1, warm, env);
      var d, w := Cold(i, ladder[i].transport, env(i).deadAtDial), Rounds(ladder, i + 1, env);
      if InVain(warm, env, d) { PrependSettled(warm, env, d, w.dials, w.end); }
    }
  }

  /** A guided walk goes on exactly as long as its dials are in vain, and ends connected if and only
      if its last dial succeeded. */
  lemma {:induction false} GuidedSettles(ladder: seq<Rung>, warm: WarmTurn, startTier: int, env: nat -> Round)
    requires |ladder| >= 2
    ensures var w := Guided(ladder, warm, startTier, env); Settled(warm, env, w.dials, w.end)
  {
    var from := if startTier < 0 then 0 else 1;
    RoundsSettled(ladder, from, warm, env);
    if WarmChoice(warm).Some? {
      var d, w := Warm(WarmChoice(warm).value, warm.dead), Rounds(ladder, from, env);
      if InVain(warm, env, d) { PrependSettled(warm, env, d, w.dials, w.end); }
    }
  }

  /** The connection is wanted at every check. */
  ghost predicate Wanted(warm: WarmTurn, env: nat -> Round)
  {
    && warm.wantedAfter && warm.wantedTorn
    && forall i: nat :: env(i).wanted && env(i).wantedResolved && env(i).wantedAfter && env(i).wantedTorn
  }

  lemma {:induction false} RoundsGoOn(ladder: seq<Rung>, i: nat, warm: WarmTurn, env: nat -> Round)
    requires i <= |ladder| && Wanted(warm, env)
    ensures Rounds(ladder, i, env).end != Unwanted
    decreases |ladder| - i
  {
    if i < |ladder| { RoundsGoOn(ladder, i + 1, warm, env); }
  }

  /** A walk that stays wanted connects or exhausts the ladder. */
  lemma {:induction false} WantedGoesOn(ladder: seq<Rung>, warm: WarmTurn, startTier: int, env: nat -> Round)
    requires |ladder| >= 2 && Wanted(warm, env)
    ensures Guided(ladder, warm, startTier, env).end != Unwanted
  {
    RoundsGoOn(ladder, FromRung(startTier), warm, env);
  }

  /** The rung was condemned at its check, had no bridges, or was dialled. */
  ghost predicate Accounted(ladder: seq<Rung>, i: nat, r: Round, dials: seq<Dialled>)
    requires i < |ladder|
  {
    || ladder[i].transport in r.dead
    || (ladder[i].transport != "direct" && !r.hasLines)
    || Cold(i, ladder[i].transport, r.deadAtDial) in dials
  }

  ghost predicate Sound(ladder: seq<Rung>, i: nat, env: nat -> Round, dials: seq<Dialled>, end: End)
  {
    && Ascending(dials)
    && (forall k :: 0 <= k < |dials| ==> Cleared(ladder, env, dials[k]) && dials[k].Cold? && dials[k].index >= i)
    && (end == Exhausted ==> forall j: nat :: i <= j < |ladder| ==> Accounted(ladder, j, env(j), dials))
  }

  lemma {:induction false} PrependSound(ladder: seq<Rung>, i: nat, env: nat -> Round, rest: seq<Dialled>, end: End)
    requires i < |ladder| && Sound(ladder, i + 1, env, rest, end)
    requires Cleared(ladder, env, Cold(i, ladder[i].transport, env(i).deadAtDial))
    ensures Sound(ladder, i, env, [Cold(i, ladder[i].transport, env(i).deadAtDial)] + rest, end)
  {
  }

  lemma {:induction false} RoundsSound(ladder: seq<Rung>, i: nat, env: nat -> Round)
    requires i <= |ladder|
    ensures var w := Rounds(ladder, i, env); Sound(ladder, i, env, w.dials, w.end)
    ensures Rounds(ladder, i, env).end == Exhausted ==> Rounds(ladder, i, env).dead == {}
    decreases |ladder| - i
  {
    if i < |ladder| {
      RoundsSound(ladder, i + 1, env);
      var w := Rounds(ladder, i + 1, env);
      if Cleared(ladder, env, Cold(i, ladder[i].transport, env(i).deadAtDial)) {
        PrependSound(ladder, i, env, w.dials, w.end);
      }
    }
  }

  ghost predicate GuidedFrom(ladder: seq<Rung>, from: nat, env: nat -> Round, dials: seq<Dialled>, end: End)
  {
    && Ascending(dials)
    && (forall k :: 0 <= k < |dials| ==> Cleared(ladder, env, dials[k]))
    && (forall k :: 0 <= k < |dials| && dials[k].Cold? ==> dials[k].index >= from)
    && (end == Exhausted ==> forall j: nat :: from <= j < |ladder| ==> Accounted(ladder, j, env(j), dials))
  }

  /** A guided walk dials rungs in ladder order, each at most once, and none that its check found
      condemned; one that ends without a verdict has accounted for every rung from its start, and
      leaves the condemned set empty. */
  lemma {:induction false} GuidedSound(ladder: seq<Rung>, warm: WarmTurn, startTier: int, env: nat -> Round)
    requires |ladder| >= 2
    ensures var w, from := Guided(ladder, warm, startTier, env), if startTier < 0 then 0 else 1;
      GuidedFrom(ladder, from, env, w.dials, w.end) && (w.end == Exhausted ==> w.dead == {})
  {
    RoundsSound(ladder, FromRung(startTier), env);
    if WarmChoice(warm).Some? {
      var d := Warm(WarmChoice(warm).value, warm.dead);
      var w := Rounds(ladder, FromRung(startTier), env);
      WarmSound(ladder, FromRung(startTier), env, d, [], Unwanted);
      WarmSound(ladder, FromRung(startTier), env, d, [], Connected);
      WarmSound(ladder, FromRung(startTier), env, d, w.dials, w.end);
      assert [d] + [] == [d];
    }
  }

  lemma {:induction false} WarmSound(
    ladder: seq<Rung>, from: nat, env: nat -> Round, d: Dialled, rest: seq<Dialled>, end: End)
    requires d.Warm? && d.transport !in d.dead && Sound(ladder, from, env, rest, end)
    ensures GuidedFrom(ladder, from, env, [d] + rest, end)
  {
    var all := [d] + rest;
    assert forall k :: 0 < k < |all| ==> all[k] == rest[k - 1];
    assert forall x :: x in rest ==> x in all;
  }

  /** The cached transport is dialled, and before any rung, if and only if it can be: it is not
      condemned, nor is it direct Tor below which the ladder has been escalated. If it connects, no
      rung is dialled. */
  lemma {:induction false} WarmFirst(ladder: seq<Rung>, warm: WarmTurn, startTier: int, env: nat -> Round)
    requires |ladder| >= 2
    ensures var dials := Guided(ladder, warm, startTier, env).dials;
      && (dials != [] && dials[0].Warm? <==>
            && warm.cached.Some? && warm.wanted && warm.cached.value !in warm.dead
            && (warm.cached.value == "direct" ==> warm.startTier < 0))
      && (dials != [] && dials[0].Warm? ==>
            dials[0] == Warm(warm.cached.value, warm.dead) && (warm.connects ==> |dials| == 1))
  {
    RoundsSound(ladder, FromRung(startTier), env);
  }

  /** So what is condemned when a dial starts is dialled exactly when it was condemned during the
      wait for its bridges: never a warm start, never a bundled rung. */
  lemma {:induction false} CondemnedOnlyWhileFetching(
    ladder: seq<Rung>, warm: WarmTurn, startTier: int, env: nat -> Round, k: nat)
    requires |ladder| >= 2 && Feasible(ladder, env)
    requires k < |Guided(ladder, warm, startTier, env).dials|
    ensures var d := Guided(ladder, warm, startTier, env).dials[k];
      d.transport in d.dead <==>
        d.Cold? && d.index < |ladder| && ladder[d.index].fetched
        && d.transport in env(d.index).deadAtDial - env(d.index).dead
  {
    GuidedSound(ladder, warm, startTier, env);
    assert Cleared(ladder, env, Guided(ladder, warm, startTier, env).dials[k]);
  }

  /** And that does happen: the verdict on a transport can arrive while its bridges are fetched. */
  lemma {:induction false} FetchedRungMayBeCondemned()
    ensures exists ladder, env: nat -> Round, warm ::
      && |ladder| >= 2 && Feasible(ladder, env)
      && Guided(ladder, warm, -1, env) == Walk([Cold(1, "webtunnel", {"webtunnel"})], Connected, {"webtunnel"})
  {
    var ladder := [Rung("direct", false), Rung("webtunnel", true)];
    var env: nat -> Round := (i: nat) =>
      if i == 0 then Round(true, {"direct"}, true, false, {"direct"}, false, true, true, {"direct"})
      else Round(true, {}, true, true, {"webtunnel"}, true, true, true, {"webtunnel"});
    var warm := WarmTurn(None, -1, {}, true, false, true, true, {});
    assert Rounds(ladder, 1, env) == Walk([Cold(1, "webtunnel", {"webtunnel"})], Connected, {"webtunnel"});
    assert Guided(ladder, warm, -1, env) == Walk([Cold(1, "webtunnel", {"webtunnel"})], Connected, {"webtunnel"});
  }
}
