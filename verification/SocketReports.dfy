/**
 * What JS hears of a connection, told from the list of steps alone: which connection JS closed or
 * replaced is read off the calls it made, not off the state.
 */
module SocketReports {
  import opened Common
  import opened SocketProtocol
  import opened SocketSafety

  // ── The calls of a run ───────────────────────────────────────────────────────────────────────

  /** Connections are numbered by their `connect` calls. */
  function Connects(steps: seq<Step>): nat
  {
    if steps == [] then 0
    else Connects(steps[..|steps| - 1]) + if steps[|steps| - 1].JsConnect? then 1 else 0
  }

  function IdOf(steps: seq<Step>, c: nat): string
    requires c < Connects(steps)
  {
    var before, last := steps[..|steps| - 1], steps[|steps| - 1];
    if c < Connects(before) then IdOf(before, c) else last.id
  }

  predicate Names(step: Step, id: string) { step == JsConnect(id) || step == JsClose(id) }

  /** After its own `connect`, JS called `close` or `connect` with the id of connection `c`. */
  predicate Superseded(steps: seq<Step>, c: nat)
  {
    steps != [] &&
    var before, last := steps[..|steps| - 1], steps[|steps| - 1];
    Superseded(before, c) || (c < Connects(before) && Names(last, IdOf(before, c)))
  }

  lemma {:induction false} RunLast(steps: seq<Step>)
    requires steps != []
    ensures Run(steps) == Next(Run(steps[..|steps| - 1]), steps[|steps| - 1])
  {
    var before, last := steps[..|steps| - 1], [steps[|steps| - 1]];
    assert steps == before + last && last[1..] == [];
    RunSplit(INIT, before, last);
  }

  // ── How a step changes the connections ───────────────────────────────────────────────────────

  /** Connections keep their id, and only a `close` or `connect` of that id evicts one. */
  ghost predicate SameFates(s: State, t: State)
  {
    && |t.conns| == |s.conns|
    && forall d :: 0 <= d < |s.conns| ==>
         t.conns[d].id == s.conns[d].id && (t.conns[d].fate == Evicted <==> s.conns[d].fate == Evicted)
  }

  /** A task step changes its own connection alone, which stays closed if it was. */
  ghost predicate OwnStep(s: State, t: State, c: nat)
    requires c < |s.conns|
  {
    && t.calls == s.calls && |t.conns| == |s.conns|
    && (forall d :: 0 <= d < |s.conns| && d != c ==> t.conns[d] == s.conns[d])
    && t.conns[c].id == s.conns[c].id
    && (t.conns[c].fate == Evicted <==> s.conns[c].fate == Evicted)
    && (s.conns[c].sock.closed ==> t.conns[c].sock.closed)
  }

  lemma {:induction false} ConnectingShape(s: State, c: nat, ch: Choice)
    requires c < |s.conns| && Connecting(s.conns[c].pc)
    ensures OwnStep(s, Task(s, c, ch), c)
  {
  }

  lemma {:induction false} UnregisterShape(s: State, c: nat, kind: Kind)
    requires TableInv(s) && c < |s.conns|
    ensures OwnStep(s, Unregister(s, c, kind), c)
  {
  }

  lemma {:induction false} TaskShape(s: State, c: nat, ch: Choice)
    requires TableInv(s) && c < |s.conns|
    ensures OwnStep(s, Task(s, c, ch), c)
  {
    var pc := s.conns[c].pc;
    if Connecting(pc) {
      ConnectingShape(s, c, ch);
    } else if pc.Reading? || pc.Delivering? || pc.Reporting? {
      SpeakingShape(s, c, ch);
    } else if pc.Exiting? {
      UnregisterShape(s, c, Close);
    } else if pc.Catching? {
      UnregisterShape(s, c, Error);
    } else {
      TearingShape(s, c, ch);
    }
  }

  lemma {:induction false} SpeakingShape(s: State, c: nat, ch: Choice)
    requires c < |s.conns| && var pc := s.conns[c].pc; pc.Reading? || pc.Delivering? || pc.Reporting?
    ensures OwnStep(s, Task(s, c, ch), c)
  {
  }

  lemma {:induction false} TearingShape(s: State, c: nat, ch: Choice)
    requires c < |s.conns| && !Connecting(s.conns[c].pc)
    requires var pc := s.conns[c].pc;
      !(pc.Reading? || pc.Delivering? || pc.Reporting? || pc.Exiting? || pc.Catching?)
    ensures OwnStep(s, Task(s, c, ch), c)
  {
  }

  lemma {:induction false} EvictFates(s: State, id: string)
    requires TableInv(s)
    ensures var t := Evict(s, id);
      && |t.conns| == |s.conns|
      && forall d :: 0 <= d < |s.conns| ==>
           && t.conns[d].id == s.conns[d].id
           && (t.conns[d].fate == Evicted <==> s.conns[d].fate == Evicted || (id in s.table && s.table[id] == d))
  {
  }

  lemma {:induction false} CallFates(s: State, n: nat)
    requires n < |s.calls|
    ensures SameFates(s, Advance(s, n))
  {
  }

  lemma {:induction false} OtherFates(s: State, step: Step)
    requires TableInv(s) && !step.JsConnect? && !step.JsClose?
    ensures SameFates(s, Next(s, step))
  {
    match step
    case JsSend(c) =>
    case CallStep(n) => if n < |s.calls| { CallFates(s, n); }
    case TaskStep(c, ch) => if c < |s.conns| { TaskShape(s, c, ch); }
  }

  // ── The state tells the calls ────────────────────────────────────────────────────────────────

  ghost predicate Told(s: State, steps: seq<Step>)
  {
    && |s.conns| == Connects(steps)
    && forall c :: 0 <= c < |s.conns| ==>
         s.conns[c].id == IdOf(steps, c) && (s.conns[c].fate == Evicted ==> Superseded(steps, c))
  }

  lemma {:induction false} ToldStep(s: State, before: seq<Step>, step: Step)
    requires TableInv(s) && Told(s, before)
    ensures Told(Next(s, step), before + [step])
  {
    var steps := before + [step];
    assert steps[..|steps| - 1] == before;
    match step
    case JsConnect(id) => EvictFates(s, id);
    case JsClose(id) => EvictFates(s, id);
    case _ => OtherFates(s, step);
  }

  lemma {:induction false} RunTold(steps: seq<Step>)
    ensures Told(Run(steps), steps)
    decreases |steps|
  {
    if steps != [] {
      var before := steps[..|steps| - 1];
      RunTold(before);
      RunKeeps(before);
      RunLast(steps);
      ToldStep(Run(before), before, steps[|steps| - 1]);
      assert before + [steps[|steps| - 1]] == steps;
    }
  }

  // ── Opened, then closed; or failed without opening ───────────────────────────────────────────

  /** Before `open`, and after it until the terminal event. */
  predicate Early(pc: Pc)
  {
    || pc.Start? || pc.Shaking? || pc.Failing? || pc.Checking? || pc.Publishing? || pc.Opening? || pc.Catching?
    || pc == Reporting(Error)
  }

  predicate Late(pc: Pc) { pc.Reading? || pc.Delivering? || pc.Exiting? || pc == Reporting(Close) }

  ghost predicate Account(k: Conn, log: seq<Entry>, c: nat)
  {
    var opens := Count(log, Event(c, Open));
    && opens <= 1
    && (Early(k.pc) ==> opens == Count(log, Event(c, Error)) == 0)
    && (Late(k.pc) ==> opens == 1)
    && (Count(log, Event(c, Close)) > 0 ==> opens == 1)
    && (Count(log, Event(c, Error)) > 0 ==> opens == 0)
    && ((k.pc.Opening? || Late(k.pc)) && !k.sock.closed ==> k.sock.sockfd.Some?)
  }

  ghost predicate Unheard(log: seq<Entry>, c: nat) { forall kind :: Count(log, Event(c, kind)) == 0 }

  ghost predicate Accounts(s: State)
  {
    && (forall c :: 0 <= c < |s.conns| ==> Account(s.conns[c], s.log, c))
    && (forall c: nat :: c >= |s.conns| ==> Unheard(s.log, c))
  }

  lemma {:induction false} Counted(log: seq<Entry>, x: Entry)
    ensures forall e :: Count(log + [x], e) == Count(log, e) + if x == e then 1 else 0
  {
    assert (log + [x])[..|log|] == log;
  }

  /** A step that says nothing and moves connection `c` alone. */
  lemma {:induction false} QuietAccounts(s: State, t: State, c: nat)
    requires Accounts(s) && c < |s.conns| == |t.conns| && t.log == s.log
    requires forall d :: 0 <= d < |s.conns| && d != c ==> t.conns[d] == s.conns[d]
    requires Account(t.conns[c], t.log, c)
    ensures Accounts(t)
  {
  }

  /** A logged entry that is no event changes no account. */
  lemma {:induction false} LoggedAccounts(s: State, e: Entry)
    requires Accounts(s) && !e.Event?
    ensures Accounts(Log(s, e))
  {
    Counted(s.log, e);
    forall c | 0 <= c < |s.conns| ensures Account(s.conns[c], s.log + [e], c) { assert Account(s.conns[c], s.log, c); }
    forall c: nat | c >= |s.conns| ensures Unheard(s.log + [e], c) { assert Unheard(s.log, c); }
  }

  /** An event of connection `c`, which moves it on. */
  lemma {:induction false} EventAccounts(s: State, c: nat, kind: Kind, pc: Pc)
    requires Accounts(s) && c < |s.conns|
    requires Account(s.conns[c].(pc := pc), s.log + [Event(c, kind)], c)
    ensures Accounts(Log(Goto(s, c, pc), Event(c, kind)))
  {
    var e := Event(c, kind);
    var t := Log(Goto(s, c, pc), e);
    Counted(s.log, e);
    forall d | 0 <= d < |t.conns| ensures Account(t.conns[d], t.log, d) {
      if d != c { assert Account(s.conns[d], s.log, d); }
    }
    forall d: nat | d >= |t.conns| ensures Unheard(t.log, d) { assert Unheard(s.log, d); }
  }

  lemma {:induction false} ConnectingAccounts(s: State, c: nat, ch: Choice)
    requires Accounts(s) && c < |s.conns| && Connecting(s.conns[c].pc)
    ensures Accounts(Task(s, c, ch))
  {
    assert Account(s.conns[c], s.log, c);
    var pc := s.conns[c].pc;
    if pc.Start? && ch == Ok {
      var t := Goto(s, c, Shaking(|s.owner|));
      QuietAccounts(s, t, c);
      LoggedAccounts(t, Opened(|s.owner|));
    } else if pc.Failing? {
      ShutAccounts(s, c, pc.fd, Catching);
    } else if pc.Dropping? {
      ShutAccounts(s, c, pc.fd, Done);
    } else {
      QuietAccounts(s, Task(s, c, ch), c);
    }
  }

  lemma {:induction false} ShutAccounts(s: State, c: nat, f: nat, pc: Pc)
    requires Accounts(s) && c < |s.conns| && Account(s.conns[c].(pc := pc), s.log, c)
    ensures Accounts(ShutFd(Goto(s, c, pc), f))
  {
    var t := Goto(s, c, pc);
    QuietAccounts(s, t, c);
    LoggedAccounts(Own(t, f, Gone), Shut(f));
  }

  lemma {:induction false} ReadAccounts(s: State, c: nat, ch: Choice)
    requires Accounts(s) && c < |s.conns| && s.conns[c].pc.Reading?
    ensures Accounts(Task(s, c, ch))
  {
    assert Account(s.conns[c], s.log, c);
    if ch == Pong {
      if s.conns[c].sock.Writable() { LoggedAccounts(s, Frame(s.conns[c].sock.sockfd.value)); }
    } else {
      QuietAccounts(s, Task(s, c, ch), c);
    }
  }

  lemma {:induction false} TaskAccounts(s: State, c: nat, ch: Choice)
    requires Accounts(s) && c < |s.conns| && ConnOk(s.conns[c])
    ensures Accounts(Task(s, c, ch))
  {
    var k := s.conns[c];
    assert Account(k, s.log, c);
    if Connecting(k.pc) {
      ConnectingAccounts(s, c, ch);
    } else if k.pc.Opening? {
      SpokenAccounts(s, c, Open, Reading);
    } else if k.pc.Reading? {
      ReadAccounts(s, c, ch);
    } else if k.pc.Delivering? {
      SpokenAccounts(s, c, Message, Reading);
    } else if k.pc.Reporting? {
      SpokenAccounts(s, c, k.pc.kind, Tearing);
    } else if k.pc.Closing? {
      ShutAccounts(s, c, k.pc.fd, Done);
    } else {
      QuietAccounts(s, Task(s, c, ch), c);
    }
  }

  lemma {:induction false} SpokenAccounts(s: State, c: nat, kind: Kind, pc: Pc)
    requires Accounts(s) && c < |s.conns| && ConnOk(s.conns[c])
    requires var was := s.conns[c].pc;
      || (was.Opening? && kind == Open && pc == Reading)
      || (was.Delivering? && kind == Message && pc == Reading)
      || (was == Reporting(kind) && pc == Tearing)
    ensures Accounts(Log(Goto(s, c, pc), Event(c, kind)))
  {
    assert Account(s.conns[c], s.log, c);
    Counted(s.log, Event(c, kind));
    EventAccounts(s, c, kind, pc);
  }

  lemma {:induction false} EvictAccounts(s: State, id: string)
    requires Accounts(s)
    ensures Accounts(Evict(s, id))
  {
    if id in s.table && s.table[id] < |s.conns| {
      assert Account(s.conns[s.table[id]], s.log, s.table[id]);
      QuietAccounts(s, Evict(s, id), s.table[id]);
    }
  }

  lemma {:induction false} ConnectAccounts(s: State, id: string)
    requires Accounts(s)
    ensures Accounts(Connected(s, id))
  {
    EvictAccounts(s, id);
    var e, t := Evict(s, id), Connected(s, id);
    assert Unheard(e.log, |e.conns|);
    forall c | 0 <= c < |t.conns| ensures Account(t.conns[c], t.log, c) {
      if c < |e.conns| { assert Account(e.conns[c], e.log, c); }
    }
  }

  lemma {:induction false} NextAccounts(s: State, step: Step)
    requires Accounts(s) && Inv(s)
    ensures Accounts(Next(s, step))
  {
    match step
    case JsConnect(id) => ConnectAccounts(s, id);
    case JsClose(id) => EvictAccounts(s, id);
    case JsSend(c) =>
      if c < |s.conns| && s.conns[c].sock.Writable() { LoggedAccounts(s, Frame(s.conns[c].sock.sockfd.value)); }
    case CallStep(n) => if n < |s.calls| { CallAccounts(s, n); }
    case TaskStep(c, ch) =>
      if c < |s.conns| {
        assert ConnInv(s, c);
        TaskAccounts(s, c, ch);
      }
  }

  lemma {:induction false} CallAccounts(s: State, n: nat)
    requires Accounts(s) && n < |s.calls|
    ensures Accounts(Advance(s, n))
  {
    match s.calls[n]
    case Locking(c) =>
      if c < |s.conns| {
        assert Account(s.conns[c], s.log, c);
        QuietAccounts(s, Advance(s, n), c);
      }
    case Holding(f) => LoggedAccounts(Own(s.(calls := s.calls[n := Returned]), f, Gone), Shut(f));
    case Returned =>
  }

  lemma {:induction false} RunAccounts(steps: seq<Step>)
    ensures Accounts(Run(steps))
    decreases |steps|
  {
    if steps != [] {
      var before := steps[..|steps| - 1];
      RunAccounts(before);
      RunKeeps(before);
      RunLast(steps);
      NextAccounts(Run(before), steps[|steps| - 1]);
    }
  }

  // ── Theorems ─────────────────────────────────────────────────────────────────────────────────

  /** JS hears of the end of every connection that it did not close or replace itself: exactly one
      terminal event by the time its task has ended, `close` if it had heard `open` and `error` if
      not. */
  lemma {:induction false} EndIsReported(steps: seq<Step>, c: nat)
    requires c < Connects(steps) && !Superseded(steps, c)
    ensures var s := Run(steps);
      && c < |s.conns|
      && (s.conns[c].pc.Done? ==>
            && Count(s.log, Event(c, Open)) <= 1
            && Count(s.log, Event(c, Close)) == Count(s.log, Event(c, Open))
            && Count(s.log, Event(c, Error)) == 1 - Count(s.log, Event(c, Open)))
  {
    RunKeeps(steps);
    RunTold(steps);
    RunAccounts(steps);
    var s := Run(steps);
    assert ConnInv(s, c) && Account(s.conns[c], s.log, c);
    assert s.conns[c].pc.Done? ==> Terminals(s.log, c) == 1;
  }

  lemma {:induction false} StaysEvicted(s: State, steps: seq<Step>, c: nat)
    requires Inv(s) && c < |s.conns| && s.conns[c].fate == Evicted
    ensures var t := RunFrom(s, steps); c < |t.conns| && t.conns[c].fate == Evicted
    decreases |steps|
  {
    if steps != [] {
      var step := steps[0];
      match step {
        case JsConnect(id) => EvictFates(s, id);
        case JsClose(id) => EvictFates(s, id);
        case _ => OtherFates(s, step);
      }
      NextKeeps(s, step);
      StaysEvicted(Next(s, step), steps[1..], c);
    }
  }

  /** A connection that JS closes or replaces while it is the registered one never reports its end. */
  lemma {:induction false} ClosedByJsIsSilent(before: seq<Step>, call: Step, after: seq<Step>, id: string)
    requires Names(call, id) && id in Run(before).table
    ensures var c := Run(before).table[id]; Terminals(Run(before + ([call] + after)).log, c) == 0
  {
    RunKeeps(before);
    var s := Run(before);
    var c := s.table[id];
    EvictFates(s, id);
    NextKeeps(s, call);
    StaysEvicted(Next(s, call), after, c);
    assert ([call] + after)[1..] == after;
    RunSplit(INIT, before, [call] + after);
    RunKeeps(before + ([call] + after));
  }

  /** Where the pending close of an evicted connection is. */
  ghost predicate Doomed(s: State)
  {
    forall c :: 0 <= c < |s.conns| && s.conns[c].fate == Evicted ==> s.conns[c].sock.closed || Locking(c) in s.calls
  }

  lemma {:induction false} DoomedEvict(s: State, id: string)
    requires TableInv(s) && Doomed(s)
    ensures Doomed(Evict(s, id))
  {
    EvictFates(s, id);
    var t := Evict(s, id);
    assert forall x :: x in s.calls ==> x in t.calls;
    if id in s.table { assert t.calls[|s.calls|] == Locking(s.table[id]); }
  }

  lemma {:induction false} DoomedAdvance(s: State, n: nat)
    requires Doomed(s) && n < |s.calls|
    ensures Doomed(Advance(s, n))
  {
    var t := Advance(s, n);
    forall c | 0 <= c < |t.conns| && t.conns[c].fate == Evicted
      ensures t.conns[c].sock.closed || Locking(c) in t.calls
    {
      if !s.conns[c].sock.closed && s.calls[n] != Locking(c) {
        var m :| 0 <= m < |s.calls| && s.calls[m] == Locking(c);
        assert t.calls[m] == Locking(c);
      }
    }
  }

  lemma {:induction false} DoomedTask(s: State, c: nat, ch: Choice)
    requires TableInv(s) && Doomed(s) && c < |s.conns|
    ensures Doomed(Task(s, c, ch))
  {
    TaskShape(s, c, ch);
  }

  lemma {:induction false} RunDoomed(steps: seq<Step>)
    ensures Doomed(Run(steps))
    decreases |steps|
  {
    if steps != [] {
      var before := steps[..|steps| - 1];
      RunDoomed(before);
      RunKeeps(before);
      RunLast(steps);
      var s := Run(before);
      match steps[|steps| - 1] {
        case JsConnect(id) => DoomedEvict(s, id);
        case JsClose(id) => DoomedEvict(s, id);
        case JsSend(c) =>
        case CallStep(n) => if n < |s.calls| { DoomedAdvance(s, n); }
        case TaskStep(c, ch) =>
          if c < |s.conns| { DoomedTask(s, c, ch); }
      }
    }
  }

  /** And it is closed: once the pending close calls have returned, it holds no descriptor and a send
      on it writes nothing. */
  lemma {:induction false} ClosedByJsIsClosed(before: seq<Step>, call: Step, after: seq<Step>, id: string)
    requires Names(call, id) && id in Run(before).table
    ensures var c := Run(before).table[id]; var s := Run(before + ([call] + after));
      (forall n :: 0 <= n < |s.calls| ==> s.calls[n].Returned?) ==>
        c < |s.conns| && s.conns[c].sock == Sock(None, true) && Next(s, JsSend(c)) == s
  {
    RunKeeps(before);
    var s := Run(before);
    var c := s.table[id];
    EvictFates(s, id);
    NextKeeps(s, call);
    StaysEvicted(Next(s, call), after, c);
    assert ([call] + after)[1..] == after;
    RunSplit(INIT, before, [call] + after);
    var steps := before + ([call] + after);
    RunDoomed(steps);
    RunKeeps(steps);
    assert ConnInv(Run(steps), c);
  }

  /** While JS has heard `open`, has not closed or replaced the connection and its read loop runs, a
      send goes out, on the descriptor that this connection's task opened. */
  lemma {:induction false} OpenSocketSends(steps: seq<Step>, c: nat)
    requires c < Connects(steps) && !Superseded(steps, c)
    ensures var s := Run(steps);
      c < |s.conns| && (s.conns[c].pc.Reading? ==>
        exists f :: 0 <= f < |s.creator| && s.creator[f] == c && Next(s, JsSend(c)).log == s.log + [Frame(f)])
  {
    RunKeeps(steps);
    RunTold(steps);
    RunAccounts(steps);
    var s := Run(steps);
    assert ConnInv(s, c) && Account(s.conns[c], s.log, c);
    if s.conns[c].pc.Reading? {
      var f := s.conns[c].sock.sockfd.value;
      assert OwnerInv(s, f);
      assert Next(s, JsSend(c)).log == s.log + [Frame(f)];
    }
  }

  /** And what its read loop delivers is heard, once. */
  lemma {:induction false} OpenSocketHears(steps: seq<Step>, c: nat, ch: Choice)
    requires c < Connects(steps) && !Superseded(steps, c)
    ensures var s := Run(steps);
      c < |s.conns| && (s.conns[c].pc.Reading? ==>
        var t := Next(Next(s, TaskStep(c, Deliver)), TaskStep(c, ch));
        t.log == s.log + [Event(c, Message)] && t.conns[c].pc.Reading?)
  {
    RunKeeps(steps);
    RunTold(steps);
    assert ConnInv(Run(steps), c);
  }

  /** A `closeConnection` call returns after at most two steps of its own, and the descriptor it took,
      if there was one to take, is closed by then. */
  lemma {:induction false} CallReturns(steps: seq<Step>, n: nat)
    requires n < |Run(steps).calls|
    ensures var s := Run(steps); var t := Next(Next(s, CallStep(n)), CallStep(n));
      && t.calls == s.calls[n := Returned]
      && match s.calls[n]
         case Returned => t == s
         case Holding(f) => t.log == s.log + [Shut(f)]
         case Locking(c) =>
           c < |s.conns| && t.log == match s.conns[c].sock.Taken() case None => s.log case Some(f) => s.log + [Shut(f)]
  {
    RunKeeps(steps);
    var s := Run(steps);
    assert CallInv(s, n);
    assert s.calls[n].Returned? ==> s.calls[n := Returned] == s.calls;
  }

  /** Steps to the end of a task when everything it tries from now on fails. */
  function Left(pc: Pc): nat
  {
    match pc
    case Done => 0 case Closing(_) => 1 case Dropping(_) => 1 case Tearing => 2 case Reporting(_) => 3
    case Catching => 4 case Exiting => 4 case Start => 5 case Failing(_) => 5 case Reading => 5
    case Delivering => 6 case Opening => 6 case Shaking(_) => 6 case Publishing(_) => 7 case Checking(_) => 8
  }

  lemma {:induction false} TaskMovesOn(s: State, c: nat)
    requires c < |s.conns| && !s.conns[c].pc.Done?
    ensures MovedOn(s, Task(s, c, Fail), c)
  {
    if Connecting(s.conns[c].pc) { ConnectingMovesOn(s, c); } else { OthersMoveOn(s, c); }
  }

  ghost predicate MovedOn(s: State, t: State, c: nat)
    requires c < |s.conns|
  {
    |t.conns| == |s.conns| && Left(t.conns[c].pc) < Left(s.conns[c].pc)
  }

  lemma {:induction false} ConnectingMovesOn(s: State, c: nat)
    requires c < |s.conns| && Connecting(s.conns[c].pc)
    ensures MovedOn(s, Task(s, c, Fail), c)
  {
  }

  lemma {:induction false} OthersMoveOn(s: State, c: nat)
    requires c < |s.conns| && !s.conns[c].pc.Done? && !Connecting(s.conns[c].pc)
    ensures MovedOn(s, Task(s, c, Fail), c)
  {
  }

  /** No task can get stuck: from every reachable state its end is at most eight of its own steps
      away, so its report is too. */
  lemma {:induction false} TaskCanEnd(s: State, c: nat) returns (steps: seq<Step>)
    requires c < |s.conns|
    ensures |steps| <= Left(s.conns[c].pc) <= 8 && forall k :: 0 <= k < |steps| ==> steps[k] == TaskStep(c, Fail)
    ensures var t := RunFrom(s, steps); c < |t.conns| && t.conns[c].pc.Done?
    decreases Left(s.conns[c].pc)
  {
    steps := [];
    if !s.conns[c].pc.Done? {
      TaskMovesOn(s, c);
      var rest := TaskCanEnd(Next(s, TaskStep(c, Fail)), c);
      steps := [TaskStep(c, Fail)] + rest;
      assert steps[1..] == rest;
    }
  }
}
