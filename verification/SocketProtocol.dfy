/**
 * The connection table of the SOCKS-tunnelled WebSocket module, as a concurrent protocol.
 *
 * JS calls, handshake tasks and read loops race over one table. Each step below is one lock-sized
 * section of the source, one raw socket operation or one emitted event; a run is any interleaving
 * of them. A descriptor is identified by its open, so a number reused by the kernel counts as a
 * new one. The log records what the outside world saw.
 */
module SocketProtocol {
  import opened Common

  // ── The lock-guarded objects ─────────────────────────────────────────────────────────────────

  /** The fields of a `Connection`, guarded by its lock. */
  datatype Sock = Sock(sockfd: Option<nat>, closed: bool)
  {
    /** `writeFrame` goes ahead exactly then. */
    predicate Writable() { !closed && sockfd.Some? }

    /** The locked section of `closeConnection`: the first caller takes the descriptor. */
    function Released(): Sock { if closed then this else Sock(None, true) }

    function Taken(): Option<nat> { if closed then None else sockfd }
  }

  function Dropped<V(==)>(table: map<string, V>, id: string, c: V): map<string, V>
  {
    if id in table && table[id] == c then table - {id} else table
  }

  class Connection {
    var sockfd: int
    var closed: bool

    constructor ()
      ensures View() == Sock(None, false)
    {
      sockfd, closed := -1, false;
    }

    function View(): Sock
      reads this
    {
      Sock(if sockfd >= 0 then Some(sockfd) else None, closed)
    }

    /** Publishing the connected descriptor, unless the connection was closed meanwhile. */
    method Publish(fd: nat) returns (ok: bool)
      modifies this
      ensures ok == !old(closed)
      ensures View() == if ok then Sock(Some(fd), false) else old(View())
    {
      if closed { return false; }
      sockfd := fd;
      return true;
    }

    /** `closeConnection`; the caller closes the descriptor it returns, if any. */
    method Close() returns (fd: int)
      modifies this
      ensures View() == old(View()).Released()
      ensures fd >= 0 <==> old(View()).Taken().Some?
      ensures fd >= 0 ==> old(View()).Taken() == Some(fd)
    {
      if closed { return -1; }
      closed := true;
      fd := sockfd;
      sockfd := -1;
    }
  }

  class ConnectionTable {
    var connections: map<string, Connection>

    method Put(id: string, c: Connection) returns (prior: Option<Connection>)
      modifies this
      ensures connections == old(connections)[id := c]
      ensures prior == if id in old(connections) then Some(old(connections)[id]) else None
    {
      prior := if id in connections then Some(connections[id]) else None;
      connections := connections[id := c];
    }

    /** Removes `c` only while it is the registered one; true when this call removed it. */
    method Remove(id: string, c: Connection) returns (removed: bool)
      modifies this
      ensures connections == Dropped(old(connections), id, c)
      ensures removed <==> id in old(connections) && old(connections)[id] == c
    {
      removed := id in connections && connections[id] == c;
      if removed {
        connections := connections - {id};
      }
    }
  }

  // ── The state of a run ───────────────────────────────────────────────────────────────────────

  datatype Kind = Open | Message | Error | Close

  predicate Terminal(k: Kind) { k == Error || k == Close }

  /** Where a connect task is; an argument is the descriptor that only this task holds. */
  datatype Pc =
    | Start | Shaking(fd: nat) | Failing(fd: nat) | Checking(fd: nat) | Publishing(fd: nat) | Dropping(fd: nat)
    | Opening | Reading | Delivering | Exiting | Catching | Reporting(kind: Kind) | Tearing | Closing(fd: nat) | Done
  {
    function Held(): Option<nat>
    {
      match this
      case Shaking(f) => Some(f) case Failing(f) => Some(f) case Checking(f) => Some(f)
      case Publishing(f) => Some(f) case Dropping(f) => Some(f) case Closing(f) => Some(f)
      case _ => None
    }
  }

  /** Still in the table, taken out by its own task, or closed or replaced by JS. */
  datatype Fate = Registered | Removed | Evicted

  datatype Conn = Conn(id: string, sock: Sock, fate: Fate, pc: Pc)

  /** A pending `closeConnection` call made by JS `close` or by a replacing `connect`. */
  datatype Call = Locking(conn: nat) | Holding(fd: nat) | Returned

  /** Who must close a descriptor. */
  datatype Owner = ByTask(conn: nat) | InConn(conn: nat) | ByCall(call: nat) | Gone

  datatype Entry = Opened(fd: nat) | Shut(fd: nat) | Frame(fd: nat) | Event(conn: nat, kind: Kind)

  /** `owner[f]` and `creator[f]` are bookkeeping for the descriptor of the f-th open. */
  datatype State = State(
    table: map<string, nat>, conns: seq<Conn>, calls: seq<Call>,
    owner: seq<Owner>, creator: seq<nat>, log: seq<Entry>)

  const INIT := State(map[], [], [], [], [], [])

  /** What the environment decides at a task step. */
  datatype Choice = Ok | Fail | Deliver | Pong

  datatype Step =
    | JsConnect(id: string) | JsClose(id: string) | JsSend(conn: nat)
    | CallStep(call: nat) | TaskStep(conn: nat, choice: Choice)

  // ── Steps ────────────────────────────────────────────────────────────────────────────────────

  function WithConn(s: State, c: nat, k: Conn): State
    requires c < |s.conns|
  {
    s.(conns := s.conns[c := k])
  }

  function Goto(s: State, c: nat, pc: Pc): State
    requires c < |s.conns|
  {
    WithConn(s, c, s.conns[c].(pc := pc))
  }

  function Own(s: State, f: nat, o: Owner): State
  {
    if f < |s.owner| then s.(owner := s.owner[f := o]) else s
  }

  function Log(s: State, e: Entry): State { s.(log := s.log + [e]) }

  function ShutFd(s: State, f: nat): State { Log(Own(s, f, Gone), Shut(f)) }

  /** A frame goes to the published descriptor, under the connection's lock. */
  function Write(s: State, c: nat): State
    requires c < |s.conns|
  {
    var k := s.conns[c].sock;
    if k.Writable() then Log(s, Frame(k.sockfd.value)) else s
  }

  predicate Current(s: State, c: nat)
    requires c < |s.conns|
  {
    s.conns[c].id in s.table && s.table[s.conns[c].id] == c
  }

  /** JS takes the registered connection of `id` out and starts closing it. */
  function Evict(s: State, id: string): State
  {
    if id in s.table && s.table[id] < |s.conns| then
      var p := s.table[id];
      WithConn(s, p, s.conns[p].(fate := Evicted)).(table := s.table - {id}, calls := s.calls + [Locking(p)])
    else s
  }

  function Connected(s: State, id: string): State
  {
    var e := Evict(s, id);
    e.(table := e.table[id := |e.conns|], conns := e.conns + [Conn(id, Sock(None, false), Registered, Start)])
  }

  /** `removeConnection` by the task itself, at the end of its life. */
  function Unregister(s: State, c: nat, kind: Kind): State
    requires c < |s.conns|
  {
    if Current(s, c) then
      WithConn(s, c, s.conns[c].(fate := Removed, pc := Reporting(kind))).(table := Dropped(s.table, s.conns[c].id, c))
    else Goto(s, c, Tearing)
  }

  function OpenFd(s: State, c: nat): State
    requires c < |s.conns|
  {
    var f := |s.owner|;
    Log(Goto(s, c, Shaking(f)).(owner := s.owner + [ByTask(c)], creator := s.creator + [c]), Opened(f))
  }

  function Published(s: State, c: nat, f: nat): State
    requires c < |s.conns|
  {
    var k := s.conns[c];
    if k.sock.closed then Goto(s, c, Dropping(f))
    else Own(WithConn(s, c, k.(sock := Sock(Some(f), false), pc := Opening)), f, InConn(c))
  }

  /** The task's own `closeConnection`. */
  function Torn(s: State, c: nat): State
    requires c < |s.conns|
  {
    var k := s.conns[c];
    match k.sock.Taken()
    case None => WithConn(s, c, k.(sock := k.sock.Released(), pc := Done))
    case Some(f) => Own(WithConn(s, c, k.(sock := k.sock.Released(), pc := Closing(f))), f, ByTask(c))
  }

  function ReadStep(s: State, c: nat, ch: Choice): State
    requires c < |s.conns|
  {
    match ch
    case Deliver => if Current(s, c) then Goto(s, c, Delivering) else s
    case Pong => Write(s, c)
    case _ => Goto(s, c, Exiting)
  }

  function Task(s: State, c: nat, ch: Choice): State
    requires c < |s.conns|
  {
    match s.conns[c].pc
    case Start => if ch == Ok then OpenFd(s, c) else Goto(s, c, Catching)
    case Shaking(f) => Goto(s, c, if ch == Ok then Checking(f) else Failing(f))
    case Failing(f) => ShutFd(Goto(s, c, Catching), f)
    case Checking(f) => Goto(s, c, if Current(s, c) then Publishing(f) else Dropping(f))
    case Publishing(f) => Published(s, c, f)
    case Dropping(f) => ShutFd(Goto(s, c, Done), f)
    case Opening => Log(Goto(s, c, Reading), Event(c, Open))
    case Reading => ReadStep(s, c, ch)
    case Delivering => Log(Goto(s, c, Reading), Event(c, Message))
    case Exiting => Unregister(s, c, Close)
    case Catching => Unregister(s, c, Error)
    case Reporting(kind) => Log(Goto(s, c, Tearing), Event(c, kind))
    case Tearing => Torn(s, c)
    case Closing(f) => ShutFd(Goto(s, c, Done), f)
    case Done => s
  }

  function Advance(s: State, n: nat): State
    requires n < |s.calls|
  {
    match s.calls[n]
    case Returned => s
    case Holding(f) => ShutFd(s.(calls := s.calls[n := Returned]), f)
    case Locking(c) =>
      if c >= |s.conns| then s
      else
        var k := s.conns[c];
        var t := WithConn(s, c, k.(sock := k.sock.Released()));
        match k.sock.Taken()
        case None => t.(calls := s.calls[n := Returned])
        case Some(f) => Own(t.(calls := s.calls[n := Holding(f)]), f, ByCall(n))
  }

  function Next(s: State, step: Step): State
  {
    match step
    case JsConnect(id) => Connected(s, id)
    case JsClose(id) => Evict(s, id)
    case JsSend(c) => if c < |s.conns| then Write(s, c) else s
    case CallStep(n) => if n < |s.calls| then Advance(s, n) else s
    case TaskStep(c, ch) => if c < |s.conns| then Task(s, c, ch) else s
  }

  function RunFrom(s: State, steps: seq<Step>): State
    decreases |steps|
  {
    if steps == [] then s else RunFrom(Next(s, steps[0]), steps[1..])
  }

  /** The state after any interleaving of steps. */
  function Run(steps: seq<Step>): State { RunFrom(INIT, steps) }
}
