/** What every interleaving of the connection protocol keeps. */
module SocketSafety {
  import opened Common
  import opened SocketProtocol

  // ── The invariant ────────────────────────────────────────────────────────────────────────────

  ghost predicate TableInv(s: State)
  {
    && (forall id :: id in s.table ==> s.table[id] < |s.conns| && s.conns[s.table[id]].id == id)
    && (forall c :: 0 <= c < |s.conns| ==> (s.conns[c].fate == Registered <==> Current(s, c)))
  }

  /** The registration, the flags and the task's position of one connection agree. */
  ghost predicate ConnOk(k: Conn)
  {
    && (k.fate == Registered ==>
          !k.sock.closed && !k.pc.Dropping? && !k.pc.Reporting? && !k.pc.Tearing? && !k.pc.Closing? && !k.pc.Done?)
    && (k.fate == Removed ==> k.pc.Reporting? || k.pc.Tearing? || k.pc.Closing? || k.pc.Done?)
    && (k.pc.Reporting? ==> k.fate == Removed && Terminal(k.pc.kind))
    && (k.sock.sockfd.Some? ==>
          !k.sock.closed &&
          (k.pc.Opening? || k.pc.Reading? || k.pc.Delivering? || k.pc.Exiting? || k.pc.Reporting? || k.pc.Tearing?))
  }

  ghost predicate Owns(s: State, fd: Option<nat>, o: Owner)
  {
    fd.Some? ==> fd.value < |s.owner| && s.owner[fd.value] == o
  }

  ghost predicate ConnInv(s: State, c: nat)
    requires c < |s.conns|
  {
    && ConnOk(s.conns[c])
    && Owns(s, s.conns[c].pc.Held(), ByTask(c))
    && Owns(s, s.conns[c].sock.sockfd, InConn(c))
  }

  ghost predicate CallInv(s: State, n: nat)
    requires n < |s.calls|
  {
    match s.calls[n]
    case Locking(c) => c < |s.conns| && s.conns[c].fate != Registered
    case Holding(f) => Owns(s, Some(f), ByCall(n))
    case Returned => true
  }

  /** The owner of a descriptor does hold it. */
  ghost predicate OwnerInv(s: State, f: nat)
    requires f < |s.owner| == |s.creator|
  {
    s.creator[f] < |s.conns| &&
    match s.owner[f]
    case ByTask(c) => s.creator[f] == c && s.conns[c].pc.Held() == Some(f)
    case InConn(c) => s.creator[f] == c && s.conns[c].sock.sockfd == Some(f)
    case ByCall(n) => n < |s.calls| && s.calls[n] == Holding(f)
    case Gone => true
  }

  ghost predicate FdInv(s: State)
  {
    && |s.owner| == |s.creator|
    && (forall c :: 0 <= c < |s.conns| ==> ConnInv(s, c))
    && (forall n :: 0 <= n < |s.calls| ==> CallInv(s, n))
    && (forall f :: 0 <= f < |s.owner| ==> OwnerInv(s, f))
  }

  function Count(log: seq<Entry>, e: Entry): nat
  {
    if log == [] then 0 else Count(log[..|log| - 1], e) + if log[|log| - 1] == e then 1 else 0
  }

  /** The connection has emitted its terminal event. */
  predicate Reported(s: State, c: nat)
  {
    c < |s.conns| && s.conns[c].fate == Removed && !s.conns[c].pc.Reporting?
  }

  function Terminals(log: seq<Entry>, c: nat): nat
  {
    Count(log, Event(c, Error)) + Count(log, Event(c, Close))
  }

  ghost predicate CountInv(s: State)
  {
    && (forall f: nat :: Count(s.log, Shut(f)) == if f < |s.owner| && s.owner[f].Gone? then 1 else 0)
    && (forall f: nat :: Count(s.log, Opened(f)) == if f < |s.owner| then 1 else 0)
    && (forall c: nat :: Terminals(s.log, c) == if Reported(s, c) then 1 else 0)
  }

  /** Nothing happens to a descriptor after its close, nor for a connection after its terminal event. */
  ghost predicate Follows(a: Entry, b: Entry)
  {
    && (a.Shut? ==> b != Frame(a.fd) && b != Shut(a.fd))
    && (a.Event? && Terminal(a.kind) ==> !(b.Event? && b.conn == a.conn))
  }

  ghost predicate OrderInv(s: State)
  {
    && (forall i, j :: 0 <= i < j < |s.log| ==> Follows(s.log[i], s.log[j]))
    && (forall i :: 0 <= i < |s.log| && s.log[i].Shut? ==> s.log[i].fd < |s.owner| && s.owner[s.log[i].fd].Gone?)
    && (forall i :: 0 <= i < |s.log| && s.log[i].Event? && Terminal(s.log[i].kind) ==> Reported(s, s.log[i].conn))
  }

  ghost predicate Inv(s: State)
  {
    TableInv(s) && FdInv(s) && CountInv(s) && OrderInv(s)
  }

  // ── Preservation, by the shape of the step ───────────────────────────────────────────────────

  predicate IsGone(s: State, f: nat) { f < |s.owner| && s.owner[f].Gone? }

  /** A step that logs nothing, closes nothing and reports nothing. */
  lemma {:induction false} QuietLog(s: State, t: State)
    requires CountInv(s) && OrderInv(s)
    requires t.log == s.log && |t.owner| == |s.owner|
    requires forall f :: IsGone(t, f) <==> IsGone(s, f)
    requires forall d :: Reported(t, d) <==> Reported(s, d)
    ensures CountInv(t) && OrderInv(t)
  {
    assert forall f: nat :: Count(t.log, Shut(f)) == if IsGone(s, f) then 1 else 0;
    forall i | 0 <= i < |t.log| && t.log[i].Shut? ensures IsGone(t, t.log[i].fd) {
      assert IsGone(s, s.log[i].fd);
    }
  }

  /** A step that logs one entry which may follow all earlier ones. */
  ghost predicate Logs(s: State, t: State, e: Entry)
  {
    && t.log == s.log + [e]
    && |t.owner| == |s.owner| + (if e.Opened? then 1 else 0)
    && (e.Opened? ==> e.fd == |s.owner|)
    && (e.Shut? ==> e.fd < |s.owner| && !IsGone(s, e.fd))
    && (e.Frame? ==> !IsGone(s, e.fd))
    && (e.Event? ==> !Reported(s, e.conn))
    && (forall f :: IsGone(t, f) <==> IsGone(s, f) || e == Shut(f))
    && (forall d :: Reported(t, d) <==> Reported(s, d) || (e.Event? && e.conn == d && Terminal(e.kind)))
  }

  lemma {:induction false} LoggedEntry(s: State, t: State, e: Entry)
    requires CountInv(s) && OrderInv(s) && Logs(s, t, e)
    ensures CountInv(t) && OrderInv(t)
  {
    LoggedCounts(s, t, e);
    LoggedOrder(s, t, e);
  }

  lemma {:induction false} CountMore(log: seq<Entry>, e: Entry, x: Entry)
    ensures Count(log + [e], x) == Count(log, x) + if e == x then 1 else 0
  {
    assert (log + [e])[..|log|] == log;
  }

  lemma {:induction false} LoggedCounts(s: State, t: State, e: Entry)
    requires CountInv(s) && Logs(s, t, e)
    ensures CountInv(t)
  {
    forall f: nat
      ensures Count(t.log, Shut(f)) == if f < |t.owner| && t.owner[f].Gone? then 1 else 0
      ensures Count(t.log, Opened(f)) == if f < |t.owner| then 1 else 0
    {
      CountMore(s.log, e, Shut(f));
      CountMore(s.log, e, Opened(f));
      assert IsGone(t, f) <==> IsGone(s, f) || e == Shut(f);
    }
    forall c: nat
      ensures Terminals(t.log, c) == if Reported(t, c) then 1 else 0
    {
      CountMore(s.log, e, Event(c, Error));
      CountMore(s.log, e, Event(c, Close));
      assert Terminals(s.log, c) == if Reported(s, c) then 1 else 0;
    }
  }

  lemma {:induction false} LoggedOrder(s: State, t: State, e: Entry)
    requires OrderInv(s) && Logs(s, t, e)
    ensures OrderInv(t)
  {
    forall i, j | 0 <= i < j < |t.log|
      ensures Follows(t.log[i], t.log[j])
    {
      if j < |s.log| { assert Follows(s.log[i], s.log[j]); } else { assert t.log[i] == s.log[i] && t.log[j] == e; }
    }
    forall i | 0 <= i < |t.log| && t.log[i].Shut?
      ensures IsGone(t, t.log[i].fd)
    {
      assert i < |s.log| ==> IsGone(s, s.log[i].fd);
    }
    forall i | 0 <= i < |t.log| && t.log[i].Event? && Terminal(t.log[i].kind)
      ensures Reported(t, t.log[i].conn)
    {
      assert i < |s.log| ==> Reported(s, s.log[i].conn);
    }
  }

  /** A task moves on without touching descriptors, table or log. */
  lemma {:induction false} GotoKeeps(s: State, c: nat, pc: Pc)
    requires Inv(s) && c < |s.conns|
    requires pc.Held() == s.conns[c].pc.Held() && ConnOk(s.conns[c].(pc := pc))
    requires !pc.Reporting? && !s.conns[c].pc.Reporting?
    ensures Inv(Goto(s, c, pc))
  {
    var t := Goto(s, c, pc);
    QuietLog(s, t);
    assert FdInv(t) by {
      forall d | 0 <= d < |t.conns| ensures ConnInv(t, d) { assert ConnInv(s, d); }
      forall n | 0 <= n < |t.calls| ensures CallInv(t, n) { assert CallInv(s, n); }
      forall f | 0 <= f < |t.owner| ensures OwnerInv(t, f) { assert OwnerInv(s, f); }
    }
  }

  lemma {:induction false} OpenKeeps(s: State, c: nat)
    requires Inv(s) && c < |s.conns| && s.conns[c].pc.Start?
    ensures Inv(OpenFd(s, c))
  {
    var t := OpenFd(s, c);
    LoggedEntry(s, t, Opened(|s.owner|));
    assert FdInv(t) by {
      forall d | 0 <= d < |t.conns| ensures ConnInv(t, d) { assert ConnInv(s, d); }
      forall n | 0 <= n < |t.calls| ensures CallInv(t, n) { assert CallInv(s, n); }
      forall f | 0 <= f < |s.owner| ensures OwnerInv(t, f) { assert OwnerInv(s, f); }
    }
  }

  /** A task closes the descriptor only it holds. */
  lemma {:induction false} TaskShutKeeps(s: State, c: nat, f: nat, pc: Pc)
    requires Inv(s) && c < |s.conns| && s.conns[c].pc.Held() == Some(f)
    requires pc.Held() == None && !pc.Reporting? && ConnOk(s.conns[c].(pc := pc))
    ensures Inv(ShutFd(Goto(s, c, pc), f))
  {
    TaskShutLog(s, c, f, pc);
    TaskShutFds(s, c, f, pc);
  }

  lemma {:induction false} TaskShutLog(s: State, c: nat, f: nat, pc: Pc)
    requires Inv(s) && c < |s.conns| && s.conns[c].pc.Held() == Some(f)
    requires pc.Held() == None && !pc.Reporting? && ConnOk(s.conns[c].(pc := pc))
    ensures var t := ShutFd(Goto(s, c, pc), f); CountInv(t) && OrderInv(t)
  {
    assert ConnInv(s, c);
    LoggedEntry(s, ShutFd(Goto(s, c, pc), f), Shut(f));
  }

  lemma {:induction false} TaskShutFds(s: State, c: nat, f: nat, pc: Pc)
    requires FdInv(s) && c < |s.conns| && s.conns[c].pc.Held() == Some(f)
    requires pc.Held() == None && ConnOk(s.conns[c].(pc := pc))
    ensures FdInv(ShutFd(Goto(s, c, pc), f))
  {
    var t := ShutFd(Goto(s, c, pc), f);
    assert ConnInv(s, c);
    forall d | 0 <= d < |t.conns| ensures ConnInv(t, d) { assert ConnInv(s, d); }
    forall n | 0 <= n < |t.calls| ensures CallInv(t, n) { assert CallInv(s, n); }
    assert OwnerInv(s, f);
    forall g | 0 <= g < |t.owner| && g != f ensures OwnerInv(t, g) { assert OwnerInv(s, g); }
  }

  lemma {:induction false} PublishKeeps(s: State, c: nat, f: nat)
    requires Inv(s) && c < |s.conns| && s.conns[c].pc == Publishing(f)
    ensures Inv(Published(s, c, f))
  {
    assert ConnInv(s, c);
    if s.conns[c].sock.closed {
      GotoKeeps(s, c, Dropping(f));
    } else {
      var t := Published(s, c, f);
      QuietLog(s, t);
      assert FdInv(t) by {
        forall d | 0 <= d < |t.conns| ensures ConnInv(t, d) { assert ConnInv(s, d); }
        forall n | 0 <= n < |t.calls| ensures CallInv(t, n) { assert CallInv(s, n); }
        forall g | 0 <= g < |t.owner| ensures OwnerInv(t, g) { assert OwnerInv(s, g); }
      }
    }
  }

  /** An event is emitted: `open` or `message` while alive, or the one terminal event. */
  lemma {:induction false} EventKeeps(s: State, c: nat, kind: Kind)
    requires Inv(s) && c < |s.conns|
    requires var pc := s.conns[c].pc;
             if Terminal(kind) then pc == Reporting(kind) else pc.Opening? || pc.Delivering?
    ensures Inv(Log(Goto(s, c, if Terminal(kind) then Tearing else Reading), Event(c, kind)))
  {
    var pc := if Terminal(kind) then Tearing else Reading;
    var t := Log(Goto(s, c, pc), Event(c, kind));
    assert ConnInv(s, c);
    LoggedEntry(s, t, Event(c, kind));
    EventFds(s, c, pc, Event(c, kind));
  }

  lemma {:induction false} EventFds(s: State, c: nat, pc: Pc, e: Entry)
    requires FdInv(s) && c < |s.conns| && s.conns[c].pc.Held() == pc.Held() == None && ConnOk(s.conns[c].(pc := pc))
    ensures FdInv(Log(Goto(s, c, pc), e))
  {
    var t := Log(Goto(s, c, pc), e);
    forall d | 0 <= d < |t.conns| ensures ConnInv(t, d) { assert ConnInv(s, d); }
    forall n | 0 <= n < |t.calls| ensures CallInv(t, n) { assert CallInv(s, n); }
    forall g | 0 <= g < |t.owner| ensures OwnerInv(t, g) { assert OwnerInv(s, g); }
  }

  lemma {:induction false} WriteKeeps(s: State, c: nat)
    requires Inv(s) && c < |s.conns|
    ensures Inv(Write(s, c))
  {
    var k := s.conns[c].sock;
    if k.Writable() {
      var t := Write(s, c);
      assert ConnInv(s, c);
      LoggedEntry(s, t, Frame(k.sockfd.value));
      assert FdInv(t) by {
        forall d | 0 <= d < |t.conns| ensures ConnInv(t, d) { assert ConnInv(s, d); }
        forall n | 0 <= n < |t.calls| ensures CallInv(t, n) { assert CallInv(s, n); }
        forall g | 0 <= g < |t.owner| ensures OwnerInv(t, g) { assert OwnerInv(s, g); }
      }
    }
  }

  lemma {:induction false} UnregisterKeeps(s: State, c: nat, kind: Kind)
    requires Inv(s) && c < |s.conns| && Terminal(kind)
    requires s.conns[c].pc == (if kind == Close then Exiting else Catching)
    ensures Inv(Unregister(s, c, kind))
  {
    assert ConnInv(s, c);
    if Current(s, c) {
      var t := Unregister(s, c, kind);
      QuietLog(s, t);
      assert FdInv(t) by {
        forall d | 0 <= d < |t.conns| ensures ConnInv(t, d) { assert ConnInv(s, d); }
        forall n | 0 <= n < |t.calls| ensures CallInv(t, n) { assert CallInv(s, n); }
        forall g | 0 <= g < |t.owner| ensures OwnerInv(t, g) { assert OwnerInv(s, g); }
      }
    } else {
      GotoKeeps(s, c, Tearing);
    }
  }

  lemma {:induction false} TearKeeps(s: State, c: nat)
    requires Inv(s) && c < |s.conns| && s.conns[c].pc.Tearing?
    ensures Inv(Torn(s, c))
  {
    assert ConnInv(s, c);
    QuietLog(s, Torn(s, c));
    TearFds(s, c);
  }

  lemma {:induction false} TearFds(s: State, c: nat)
    requires FdInv(s) && c < |s.conns| && s.conns[c].pc.Tearing?
    ensures FdInv(Torn(s, c))
  {
    var t := Torn(s, c);
    assert ConnInv(s, c);
    forall d | 0 <= d < |t.conns| ensures ConnInv(t, d) { assert ConnInv(s, d); }
    forall n | 0 <= n < |t.calls| ensures CallInv(t, n) { assert CallInv(s, n); }
    forall g | 0 <= g < |t.owner| ensures OwnerInv(t, g) { assert OwnerInv(s, g); }
  }

  /** JS takes a connection out of the table. */
  lemma {:induction false} EvictKeeps(s: State, id: string)
    requires Inv(s)
    ensures Inv(Evict(s, id)) && id !in Evict(s, id).table
  {
    var t := Evict(s, id);
    if id in s.table {
      var p := s.table[id];
      assert ConnInv(s, p) && Current(s, p);
      QuietLog(s, t);
      assert FdInv(t) by {
        forall d | 0 <= d < |t.conns| ensures ConnInv(t, d) { assert ConnInv(s, d); }
        forall n | 0 <= n < |s.calls| ensures CallInv(t, n) { assert CallInv(s, n); }
        forall g | 0 <= g < |t.owner| ensures OwnerInv(t, g) { assert OwnerInv(s, g); }
      }
    }
  }

  lemma {:induction false} ConnectKeeps(s: State, id: string)
    requires Inv(s)
    ensures Inv(Connected(s, id))
  {
    EvictKeeps(s, id);
    var e := Evict(s, id);
    QuietLog(e, Connected(s, id));
    EnterTable(e, id);
    EnterFds(e, id);
  }

  /** A fresh connection under an id that is free. */
  function Entered(e: State, id: string): State
  {
    e.(table := e.table[id := |e.conns|], conns := e.conns + [Conn(id, Sock(None, false), Registered, Start)])
  }

  lemma {:induction false} EnterTable(e: State, id: string)
    requires TableInv(e) && id !in e.table
    ensures TableInv(Entered(e, id))
  {
  }

  lemma {:induction false} EnterFds(e: State, id: string)
    requires FdInv(e)
    ensures FdInv(Entered(e, id))
  {
    var t := Entered(e, id);
    forall d | 0 <= d < |e.conns| ensures ConnInv(t, d) { assert ConnInv(e, d); }
    forall n | 0 <= n < |t.calls| ensures CallInv(t, n) { assert CallInv(e, n); }
    forall g | 0 <= g < |t.owner| ensures OwnerInv(t, g) { assert OwnerInv(e, g); }
  }

  /** The locked section of a JS-side close call. */
  lemma {:induction false} LockKeeps(s: State, n: nat)
    requires Inv(s) && n < |s.calls| && s.calls[n].Locking?
    ensures Inv(Advance(s, n))
  {
    assert CallInv(s, n) && ConnInv(s, s.calls[n].conn);
    QuietLog(s, Advance(s, n));
    LockFds(s, n);
  }

  lemma {:induction false} LockFds(s: State, n: nat)
    requires FdInv(s) && n < |s.calls| && s.calls[n].Locking?
    ensures FdInv(Advance(s, n))
  {
    var t := Advance(s, n);
    assert CallInv(s, n) && ConnInv(s, s.calls[n].conn);
    forall d | 0 <= d < |t.conns| ensures ConnInv(t, d) { assert ConnInv(s, d); }
    forall m | 0 <= m < |t.calls| ensures CallInv(t, m) { assert CallInv(s, m); }
    forall g | 0 <= g < |t.owner| ensures OwnerInv(t, g) { assert OwnerInv(s, g); }
  }

  lemma {:induction false} CallShutKeeps(s: State, n: nat)
    requires Inv(s) && n < |s.calls| && s.calls[n].Holding?
    ensures Inv(Advance(s, n))
  {
    var t := Advance(s, n);
    assert CallInv(s, n);
    LoggedEntry(s, t, Shut(s.calls[n].fd));
    assert FdInv(t) by {
      forall d | 0 <= d < |t.conns| ensures ConnInv(t, d) { assert ConnInv(s, d); }
      forall m | 0 <= m < |t.calls| ensures CallInv(t, m) { assert CallInv(s, m); }
      forall g | 0 <= g < |t.owner| ensures OwnerInv(t, g) { assert OwnerInv(s, g); }
    }
  }

  ghost predicate Connecting(pc: Pc)
  {
    pc.Start? || pc.Shaking? || pc.Failing? || pc.Checking? || pc.Publishing? || pc.Dropping?
  }

  lemma {:induction false} ConnectingKeeps(s: State, c: nat, ch: Choice)
    requires Inv(s) && c < |s.conns| && Connecting(s.conns[c].pc)
    ensures Inv(Task(s, c, ch))
  {
    assert ConnInv(s, c);
    match s.conns[c].pc
    case Start =>
      if ch == Ok { OpenKeeps(s, c); } else { GotoKeeps(s, c, Catching); }
    case Shaking(f) => GotoKeeps(s, c, if ch == Ok then Checking(f) else Failing(f));
    case Failing(f) => TaskShutKeeps(s, c, f, Catching);
    case Checking(f) => GotoKeeps(s, c, if Current(s, c) then Publishing(f) else Dropping(f));
    case Publishing(f) => PublishKeeps(s, c, f);
    case Dropping(f) => TaskShutKeeps(s, c, f, Done);
  }

  lemma {:induction false} ReadKeeps(s: State, c: nat, ch: Choice)
    requires Inv(s) && c < |s.conns| && s.conns[c].pc.Reading?
    ensures Inv(ReadStep(s, c, ch))
  {
    assert ConnInv(s, c);
    match ch
    case Deliver => if Current(s, c) { GotoKeeps(s, c, Delivering); }
    case Pong => WriteKeeps(s, c);
    case _ => GotoKeeps(s, c, Exiting);
  }

  lemma {:induction false} TaskKeeps(s: State, c: nat, ch: Choice)
    requires Inv(s) && c < |s.conns|
    ensures Inv(Task(s, c, ch))
  {
    var pc := s.conns[c].pc;
    if Connecting(pc) {
      ConnectingKeeps(s, c, ch);
    } else if pc.Closing? {
      assert ConnInv(s, c);
      TaskShutKeeps(s, c, pc.fd, Done);
    } else {
      match pc
      case Opening => EventKeeps(s, c, Open);
      case Reading => ReadKeeps(s, c, ch);
      case Delivering => EventKeeps(s, c, Message);
      case Exiting => UnregisterKeeps(s, c, Close);
      case Catching => UnregisterKeeps(s, c, Error);
      case Reporting(kind) =>
        assert ConnInv(s, c);
        EventKeeps(s, c, kind);
      case Tearing => TearKeeps(s, c);
      case Done =>
    }
  }

  lemma {:induction false} NextKeeps(s: State, step: Step)
    requires Inv(s)
    ensures Inv(Next(s, step))
  {
    match step
    case JsConnect(id) => ConnectKeeps(s, id);
    case JsClose(id) => EvictKeeps(s, id);
    case JsSend(c) => if c < |s.conns| { WriteKeeps(s, c); }
    case CallStep(n) =>
      if n < |s.calls| {
        match s.calls[n] {
          case Locking(_) => LockKeeps(s, n);
          case Holding(_) => CallShutKeeps(s, n);
          case Returned =>
        }
      }
    case TaskStep(c, ch) => if c < |s.conns| { TaskKeeps(s, c, ch); }
  }

  lemma {:induction false} RunFromKeeps(s: State, steps: seq<Step>)
    requires Inv(s)
    ensures Inv(RunFrom(s, steps))
    decreases |steps|
  {
    if steps != [] {
      NextKeeps(s, steps[0]);
      RunFromKeeps(Next(s, steps[0]), steps[1..]);
    }
  }

  lemma {:induction false} RunKeeps(steps: seq<Step>)
    ensures Inv(Run(steps))
  {
    RunFromKeeps(INIT, steps);
  }

  // ── Theorems, for every interleaving ─────────────────────────────────────────────────────────

  /** No descriptor is closed twice, and none is closed that was not opened. */
  lemma {:induction false} ClosedAtMostOnce(steps: seq<Step>, f: nat)
    ensures var log := Run(steps).log; Count(log, Shut(f)) <= Count(log, Opened(f)) <= 1
  {
    RunKeeps(steps);
  }

  /** Once the task that opened a descriptor has ended, the descriptor is closed exactly once, if
      and only if no JS-side close call is still about to close it. */
  lemma {:induction false} ClosedByTaskEnd(steps: seq<Step>, f: nat)
    requires f < |Run(steps).creator|
    ensures var s := Run(steps);
            && s.creator[f] < |s.conns|
            && (s.conns[s.creator[f]].pc.Done? ==> (Count(s.log, Shut(f)) == 1 <==> Holding(f) !in s.calls))
  {
    RunKeeps(steps);
    var s := Run(steps);
    var c := s.creator[f];
    assert OwnerInv(s, f);
    if s.conns[c].pc.Done? {
      assert ConnInv(s, c);
      if Holding(f) in s.calls {
        var n :| 0 <= n < |s.calls| && s.calls[n] == Holding(f);
        assert CallInv(s, n);
      }
    }
  }

  /** When every task has ended and every call has returned, every opened descriptor has been
      closed exactly once. */
  lemma {:induction false} QuiescentClosesAll(steps: seq<Step>, f: nat)
    requires var s := Run(steps);
             && (forall c :: 0 <= c < |s.conns| ==> s.conns[c].pc.Done?)
             && (forall n :: 0 <= n < |s.calls| ==> s.calls[n].Returned?)
    ensures var log := Run(steps).log; Count(log, Shut(f)) == Count(log, Opened(f))
  {
    RunKeeps(steps);
    var s := Run(steps);
    if f < |s.owner| {
      assert OwnerInv(s, f);
      assert s.owner[f].InConn? ==> ConnInv(s, s.owner[f].conn);
    }
  }

  /** No frame is written to a descriptor after its close. */
  lemma {:induction false} NoFrameAfterClose(steps: seq<Step>, i: nat, j: nat)
    requires i < j < |Run(steps).log| && Run(steps).log[i].Shut?
    ensures Run(steps).log[j] != Frame(Run(steps).log[i].fd)
  {
    RunKeeps(steps);
    var log := Run(steps).log;
    assert Follows(log[i], log[j]);
  }

  /** Each connection emits at most one terminal event, none at all when JS closed or replaced it
      first, and no event of any kind after it. */
  lemma {:induction false} TerminalEvents(steps: seq<Step>, c: nat)
    requires c < |Run(steps).conns|
    ensures var s := Run(steps);
            && Terminals(s.log, c) <= 1
            && (s.conns[c].fate == Evicted ==> Terminals(s.log, c) == 0)
            && forall i, j :: 0 <= i < j < |s.log| && s.log[i].Event? && Terminal(s.log[i].kind) && s.log[j].Event? ==>
                 s.log[j].conn != s.log[i].conn
  {
    RunKeeps(steps);
    var s := Run(steps);
    forall i, j | 0 <= i < j < |s.log| && s.log[i].Event? && Terminal(s.log[i].kind) && s.log[j].Event?
      ensures s.log[j].conn != s.log[i].conn
    {
      assert Follows(s.log[i], s.log[j]);
    }
  }

  /** A task that has ended left no registration behind, and its connection holds no descriptor. */
  lemma {:induction false} EndedTaskIsUnregistered(steps: seq<Step>, c: nat)
    requires c < |Run(steps).conns| && Run(steps).conns[c].pc.Done?
    ensures var s := Run(steps); !Current(s, c) && s.conns[c].sock.sockfd.None?
  {
    RunKeeps(steps);
    assert ConnInv(Run(steps), c);
  }

  // ── A descriptor still open when its task has ended ──────────────────────────────────────────

  /** Connect, handshake, publish, `open`. */
  const DIAL := [JsConnect("a"), TaskStep(0, Ok), TaskStep(0, Ok), TaskStep(0, Ok), TaskStep(0, Ok), TaskStep(0, Ok)]

  /** JS closes and its call takes the descriptor; the read loop ends and finds nothing to close. */
  const LATE_CLOSE := [JsClose("a"), CallStep(0), TaskStep(0, Fail), TaskStep(0, Ok), TaskStep(0, Ok)]

  function Alone(k: Sock, fate: Fate, pc: Pc, calls: seq<Call>, owner: seq<Owner>, log: seq<Entry>): State
  {
    State(if fate == Registered then map["a" := 0] else map[], [Conn("a", k, fate, pc)], calls, owner,
          if owner == [] then [] else [0], log)
  }

  lemma {:induction false} Dialled()
    ensures RunFrom(INIT, DIAL)
            == Alone(Sock(Some(0), false), Registered, Reading, [], [InConn(0)], [Opened(0), Event(0, Open)])
  {
  }

  lemma {:induction false} RunSplit(s: State, a: seq<Step>, b: seq<Step>)
    ensures RunFrom(s, a + b) == RunFrom(RunFrom(s, a), b)
    decreases |a|
  {
    if a == [] {
      assert a + b == b;
    } else {
      assert (a + b)[1..] == a[1..] + b;
      RunSplit(Next(s, a[0]), a[1..], b);
    }
  }

  lemma {:induction false} ClosedLate(log: seq<Entry>)
    ensures RunFrom(Alone(Sock(Some(0), false), Registered, Reading, [], [InConn(0)], log), LATE_CLOSE)
            == Alone(Sock(None, true), Evicted, Done, [Holding(0)], [ByCall(0)], log)
  {
  }

  /** The task has ended and its descriptor is still open, in the hands of the pending JS call. */
  lemma {:induction false} TaskMayEndFirst()
    ensures var s := Run(DIAL + LATE_CLOSE);
            |s.conns| == 1 && s.conns[0].pc.Done? && s.calls == [Holding(0)] && Count(s.log, Shut(0)) == 0
  {
    var log := [Opened(0), Event(0, Open)];
    Dialled();
    ClosedLate(log);
    RunSplit(INIT, DIAL, LATE_CLOSE);
    assert log[..1] == [Opened(0)] && [Opened(0)][..0] == [];
  }
}
