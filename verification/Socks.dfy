/**
 * Both ends of the SOCKS5 dialogue (sections 3 to 6 of RFC 1928, section 2 of RFC 1929): the Swift
 * client and the Rust server, and the circuit isolation keyed on the credentials it carries.
 *
 * Each end is a function from the bytes it has received to the bytes it has sent. Two byte streams
 * form a dialogue when each is what its end sends on receiving the other; the theorem says that
 * there is exactly one such pair and what both ends conclude from it.
 */
module Socks {
  import opened Common
  import Utf8

  const AUTH_NONE: Byte := 0x00
  const AUTH_USERPASS: Byte := 0x02
  const AUTH_UNACCEPTABLE: Byte := 0xFF
  const SUCCEEDED: Byte := 0x00
  const CMD_NOT_SUPPORTED: Byte := 0x07
  const ATYP_NOT_SUPPORTED: Byte := 0x08
  const ONION_ADDRESS_INVALID: Byte := 0xF6

  datatype Cred = Cred(user: seq<Byte>, pass: seq<Byte>)

  datatype Target = Domain(host: seq<Byte>) | Ip(octets: seq<Byte>)

  /** Reading from a stream that may end too early. */
  datatype Read<+T> = Got(value: T, rest: seq<Byte>) | Short

  function Take(s: seq<Byte>, n: nat): Read<seq<Byte>>
  {
    if |s| < n then Short else Got(s[..n], s[n..])
  }

  function LenPrefixed(s: seq<Byte>): Read<seq<Byte>>
  {
    if s == [] then Short else Take(s[1..], s[0])
  }

  // ── Server ───────────────────────────────────────────────────────────────────────────────────

  /** USER/PASS wins whenever it is offered: it carries the isolation signal. */
  function SelectAuthMethod(offered: seq<Byte>): (m: Byte)
    ensures AUTH_USERPASS in offered <==> m == AUTH_USERPASS
    ensures m == AUTH_NONE <==> AUTH_NONE in offered && AUTH_USERPASS !in offered
  {
    if AUTH_USERPASS in offered then AUTH_USERPASS
    else if AUTH_NONE in offered then AUTH_NONE
    else AUTH_UNACCEPTABLE
  }

  function EncodeReply(code: Byte): seq<Byte>
  {
    [0x05, code, 0x00, 0x01, 0, 0, 0, 0, 0, 0]
  }

  /** How a connection phase ended, what it sent, and what it left unread. */
  datatype Phase<+T> =
    | Passed(value: T, rest: seq<Byte>, out: seq<Byte>) | Waiting(out: seq<Byte>) | Failed(out: seq<Byte>)

  /** The RFC 1929 exchange; any credential is accepted. */
  function SubNegotiate(s: seq<Byte>): Phase<Option<Cred>>
  {
    if s == [] then Waiting([])
    else if s[0] != 0x01 then Failed([0x01, 0x01])
    else
      var u := LenPrefixed(s[1..]);
      if u.Short? then Waiting([])
      else
        var p := LenPrefixed(u.rest);
        if p.Short? then Waiting([])
        else Passed(Some(Cred(u.value, p.value)), p.rest, [0x01, 0x00])
  }

  function Prepend<T>(out: seq<Byte>, p: Phase<T>): Phase<T>
  {
    match p
    case Passed(v, rest, o) => Passed(v, rest, out + o)
    case Waiting(o) => Waiting(out + o)
    case Failed(o) => Failed(out + o)
  }

  function Negotiate(s: seq<Byte>): Phase<Option<Cred>>
  {
    if |s| < 2 then Waiting([])
    else if s[0] != 0x05 then Failed([])
    else
      var m := Take(s[2..], s[1]);
      if m.Short? then Waiting([])
      else
        var method_ := SelectAuthMethod(m.value);
        var out := [0x05, method_];
        if method_ == AUTH_NONE then Passed(None, m.rest, out)
        else if method_ == AUTH_USERPASS then Prepend(out, SubNegotiate(m.rest))
        else Failed(out)
  }

  datatype Request = Wanted(target: Target, port: nat) | Declined(code: Byte)

  function WithPort(target: Target, s: seq<Byte>): Phase<Request>
  {
    if |s| < 2 then Waiting([]) else Passed(Wanted(target, s[0] as int * 256 + s[1] as int), s[2..], [])
  }

  function ReadRequest(s: seq<Byte>): Phase<Request>
  {
    if |s| < 4 then Waiting([])
    else if s[0] != 0x05 then Failed([])
    else if s[1] != 0x01 then Passed(Declined(CMD_NOT_SUPPORTED), s[4..], [])
    else Destination(s[3], s[4..])
  }

  /** The address and port after the head of a request. */
  function Destination(atyp: Byte, s: seq<Byte>): Phase<Request>
  {
    if atyp == 0x01 || atyp == 0x04 then
      var a := Take(s, if atyp == 0x01 then 4 else 16);
      if a.Short? then Waiting([]) else WithPort(Ip(a.value), a.rest)
    else if atyp == 0x03 then
      var h := LenPrefixed(s);
      if h.Short? then Waiting([])
      else if Utf8.WellFormed(h.value) then WithPort(Domain(h.value), h.rest)
      else Passed(Declined(ONION_ADDRESS_INVALID), h.rest, [])
    else Passed(Declined(ATYP_NOT_SUPPORTED), s, [])
  }

  /** What the server made of a connection. */
  datatype Served = Served(auth: Option<Cred>, request: Request)

  /** `handle_conn` up to its reply; `verdict` is the reply code of the Tor-side connect. */
  function Serve(s: seq<Byte>, verdict: Byte): Phase<Served>
  {
    match Negotiate(s)
    case Waiting(o) => Waiting(o)
    case Failed(o) => Failed(o)
    case Passed(auth, rest, o) =>
      match ReadRequest(rest)
      case Waiting(o2) => Waiting(o + o2)
      case Failed(o2) => Failed(o + o2)
      case Passed(req, rest2, o2) =>
        Passed(Served(auth, req), rest2, o + o2 + EncodeReply(if req.Declined? then req.code else verdict))
  }

  /** One end of a connection: what is still to be read and what has been written. */
  class TcpStream {
    var input: seq<Byte>
    var output: seq<Byte>

    /** `read_exact`: the next `n` bytes, or nothing when the stream ends first. */
    method ReadExact(n: nat) returns (r: Option<seq<Byte>>)
      modifies this`input
      ensures r == if |old(input)| < n then None else Some(old(input)[..n])
      ensures input == if |old(input)| < n then [] else old(input)[n..]
    {
      if |input| < n {
        input := [];
        return None;
      }
      r := Some(input[..n]);
      input := input[n..];
    }

    method ReadLenPrefixed() returns (r: Option<seq<Byte>>)
      modifies this`input
      ensures match LenPrefixed(old(input))
              case Got(v, rest) => r == Some(v) && input == rest
              case Short => r == None
    {
      var len := ReadExact(1);
      if len.None? { return None; }
      r := ReadExact(len.value[0]);
    }

    method WriteAll(bytes: seq<Byte>)
      modifies this`output
      ensures output == old(output) + bytes
    {
      output := output + bytes;
    }
  }

  /** The method ran as the phase says: its result, what is left to read and what was written. */
  ghost predicate Performed<T>(p: Phase<T>, r: Option<T>, written: seq<Byte>, sock: TcpStream)
    reads sock
  {
    && sock.output == written + p.out
    && (if p.Passed? then r == Some(p.value) && sock.input == p.rest else r == None)
  }

  /** The username/password exchange. */
  method ReadCredentials(sock: TcpStream) returns (r: Option<Option<Cred>>)
    modifies sock
    ensures Performed(SubNegotiate(old(sock.input)), r, old(sock.output), sock)
  {
    var ver := sock.ReadExact(1);
    if ver.None? { return None; }
    if ver.value[0] != 0x01 {
      sock.WriteAll([0x01, 0x01]);
      return None;
    }
    var user := sock.ReadLenPrefixed();
    if user.None? { return None; }
    var pass := sock.ReadLenPrefixed();
    if pass.None? { return None; }
    sock.WriteAll([0x01, 0x00]);
    r := Some(Some(Cred(user.value, pass.value)));
  }

  method NegotiateAuth(sock: TcpStream) returns (r: Option<Option<Cred>>)
    modifies sock
    ensures Performed(Negotiate(old(sock.input)), r, old(sock.output), sock)
  {
    var head := sock.ReadExact(2);
    if head.None? || head.value[0] != 0x05 { return None; }
    var methods := sock.ReadExact(head.value[1]);
    if methods.None? { return None; }
    var chosen := SelectAuthMethod(methods.value);
    sock.WriteAll([0x05, chosen]);
    if chosen == AUTH_NONE { return Some(None); }
    if chosen != AUTH_USERPASS { return None; }
    r := ReadCredentials(sock);
  }

  /** Where the request wants to go, once its head is read. */
  method ReadTarget(sock: TcpStream, atyp: Byte) returns (eof: bool, t: Option<Target>, code: Byte)
    modifies sock`input
    ensures var s := old(sock.input);
            var a := if atyp == 0x03 then LenPrefixed(s) else Take(s, if atyp == 0x01 then 4 else 16);
            if atyp !in {0x01, 0x03, 0x04} then !eof && t == None && code == ATYP_NOT_SUPPORTED && sock.input == s
            else if a.Short? then eof
            else !eof && sock.input == a.rest &&
                 if atyp != 0x03 then t == Some(Ip(a.value))
                 else if Utf8.WellFormed(a.value) then t == Some(Domain(a.value))
                 else t == None && code == ONION_ADDRESS_INVALID
  {
    eof, t, code := false, None, ATYP_NOT_SUPPORTED;
    if atyp == 0x01 || atyp == 0x04 {
      var octets := sock.ReadExact(if atyp == 0x01 then 4 else 16);
      if octets.None? { return true, None, 0; }
      t := Some(Ip(octets.value));
    } else if atyp == 0x03 {
      var raw := sock.ReadLenPrefixed();
      if raw.None? { return true, None, 0; }
      if Utf8.WellFormed(raw.value) {
        t := Some(Domain(raw.value));
      } else {
        code := ONION_ADDRESS_INVALID;
      }
    }
  }

  method ReceiveRequest(sock: TcpStream) returns (r: Option<Request>)
    modifies sock
    ensures Performed(ReadRequest(old(sock.input)), r, old(sock.output), sock)
  {
    var head := sock.ReadExact(4);
    if head.None? || head.value[0] != 0x05 { return None; }
    if head.value[1] != 0x01 { return Some(Declined(CMD_NOT_SUPPORTED)); }
    r := ReadDestination(sock, head.value[3]);
  }

  method ReadDestination(sock: TcpStream, atyp: Byte) returns (r: Option<Request>)
    modifies sock
    ensures Performed(Destination(atyp, old(sock.input)), r, old(sock.output), sock)
  {
    var eof, target, code := ReadTarget(sock, atyp);
    if eof { return None; }
    if target.None? { return Some(Declined(code)); }
    var port := sock.ReadExact(2);
    if port.None? { return None; }
    r := Some(Wanted(target.value, port.value[0] as int * 256 + port.value[1] as int));
  }

  // ── Client ───────────────────────────────────────────────────────────────────────────────────

  /** The client accepts with some bytes left unread, refuses, is still reading, or traps in a
      `UInt8` conversion of a length above 255. */
  datatype Client =
    | Accepted(out: seq<Byte>, unread: seq<Byte>)
    | Refused(out: seq<Byte>) | Blocked(out: seq<Byte>) | Trapped(out: seq<Byte>)

  const GREETING: seq<Byte> := [0x05, 0x02, 0x00, 0x02]

  function AuthBytes(user: seq<Byte>, pass: seq<Byte>): seq<Byte>
    requires |user| < 256 && |pass| < 256
  {
    [0x01, |user|] + user + ([|pass|] + pass)
  }

  function RequestBytes(host: seq<Byte>, port: nat): seq<Byte>
    requires |host| < 256
  {
    [0x05, 0x01, 0x00, 0x03, |host|] + host + [port / 256 % 256, port % 256]
  }

  /** The part after authentication: `s` is unread, `out` already sent. */
  function ClientRequest(s: seq<Byte>, out: seq<Byte>, host: seq<Byte>, port: nat): Client
  {
    if |host| > 255 then Trapped(out)
    else
      var sent := out + RequestBytes(host, port);
      if |s| < 4 then Blocked(sent)
      else if s[1] != 0x00 then Refused(sent)
      else if s[3] == 0x01 then Bound(s[4..], 6, sent)
      else if s[3] == 0x04 then Bound(s[4..], 18, sent)
      else if s[3] == 0x03 then if |s| < 5 then Blocked(sent) else Bound(s[5..], s[4] as int + 2, sent)
      else Refused(sent)
  }

  /** Skipping the bound address of the reply. */
  function Bound(s: seq<Byte>, n: nat, sent: seq<Byte>): Client
  {
    if |s| < n then Blocked(sent) else Accepted(sent, s[n..])
  }

  function ClientSide(s: seq<Byte>, user: seq<Byte>, pass: seq<Byte>, host: seq<Byte>, port: nat): Client
  {
    if |s| < 2 then Blocked(GREETING)
    else if s[0] != 0x05 then Refused(GREETING)
    else if s[1] == AUTH_NONE then ClientRequest(s[2..], GREETING, host, port)
    else if s[1] != AUTH_USERPASS then Refused(GREETING)
    else if |user| > 255 || |pass| > 255 then Trapped(GREETING)
    else
      var sent := GREETING + AuthBytes(user, pass);
      if |s| < 4 then Blocked(sent)
      else if s[3] != 0x00 then Refused(sent)
      else ClientRequest(s[4..], sent, host, port)
  }

  /** The client's run over a stream: bytes sent, and on success what it left unread. */
  ghost predicate Connected(c: Client, ok: bool, written: seq<Byte>, sock: TcpStream)
    reads sock
  {
    sock.output == written + c.out && ok == c.Accepted? && (ok ==> sock.input == c.unread)
  }

  method SendRequest(sock: TcpStream, host: seq<Byte>, port: nat) returns (ok: bool)
    requires |host| < 256
    modifies sock
    ensures Connected(ClientRequest(old(sock.input), [], host, port), ok, old(sock.output), sock)
  {
    sock.WriteAll(RequestBytes(host, port));
    assert [] + RequestBytes(host, port) == RequestBytes(host, port);
    var rep := sock.ReadExact(4);
    if rep.None? || rep.value[1] != 0x00 { return false; }
    var skip: nat;
    match rep.value[3] {
      case 0x01 => skip := 6;
      case 0x04 => skip := 18;
      case 0x03 =>
        var l := sock.ReadExact(1);
        if l.None? { return false; }
        skip := l.value[0] as int + 2;
      case _ => return false;
    }
    var bound := sock.ReadExact(skip);
    ok := bound.Some?;
  }

  lemma {:induction false} RequestAfter(s: seq<Byte>, out: seq<Byte>, host: seq<Byte>, port: nat)
    requires |host| < 256
    ensures var c, d := ClientRequest(s, [], host, port), ClientRequest(s, out, host, port);
            d.out == out + c.out && d.Accepted? == c.Accepted? && (c.Accepted? ==> d.unread == c.unread)
  {
  }

  lemma {:induction false} AssocBytes(a: seq<Byte>, b: seq<Byte>, c: seq<Byte>)
    ensures a + b + c == a + (b + c)
  {
  }

  /** The sub-negotiation, from the client's side. */
  method Authenticate(sock: TcpStream, user: seq<Byte>, pass: seq<Byte>) returns (ok: bool)
    requires |user| < 256 && |pass| < 256
    modifies sock
    ensures sock.output == old(sock.output) + AuthBytes(user, pass)
    ensures ok <==> |old(sock.input)| >= 2 && old(sock.input)[1] == 0x00
    ensures ok ==> sock.input == old(sock.input)[2..]
  {
    sock.WriteAll(AuthBytes(user, pass));
    var ar := sock.ReadExact(2);
    ok := ar.Some? && ar.value[1] == 0x00;
  }

  /** `socks5Connect`: lengths above 255 trap in the source. */
  method Socks5Connect(sock: TcpStream, user: seq<Byte>, pass: seq<Byte>, host: seq<Byte>, port: nat) returns (ok: bool)
    requires |user| < 256 && |pass| < 256 && |host| < 256
    modifies sock
    ensures Connected(ClientSide(old(sock.input), user, pass, host, port), ok, old(sock.output), sock)
  {
    ghost var before := sock.output;
    sock.WriteAll(GREETING);
    var sel := sock.ReadExact(2);
    if sel.None? || sel.value[0] != 0x05 { return false; }
    if sel.value[1] == AUTH_USERPASS {
      ok := Authenticate(sock, user, pass);
      AssocBytes(before, GREETING, AuthBytes(user, pass));
      if !ok { return; }
      RequestAfter(sock.input, GREETING + AuthBytes(user, pass), host, port);
      AssocBytes(before, GREETING + AuthBytes(user, pass), ClientRequest(sock.input, [], host, port).out);
    } else if sel.value[1] != AUTH_NONE {
      return false;
    } else {
      RequestAfter(sock.input, GREETING, host, port);
      AssocBytes(before, GREETING, ClientRequest(sock.input, [], host, port).out);
    }
    ok := SendRequest(sock, host, port);
  }

  // ── Theorem ──────────────────────────────────────────────────────────────────────────────────

  lemma {:induction false} ReadsBack(x: seq<Byte>, rest: seq<Byte>)
    requires |x| < 256
    ensures LenPrefixed([|x|] + x + rest) == Got(x, rest)
  {
    assert ([|x|] + x + rest)[1..] == x + rest;
    assert (x + rest)[..|x|] == x && (x + rest)[|x|..] == rest;
  }

  lemma {:induction false} SubNegotiation(user: seq<Byte>, pass: seq<Byte>, rest: seq<Byte>)
    requires |user| < 256 && |pass| < 256
    ensures SubNegotiate(AuthBytes(user, pass) + rest) == Passed(Some(Cred(user, pass)), rest, [0x01, 0x00])
  {
    var tail := AuthBytes(user, pass) + rest;
    assert tail[1..] == [|user|] + user + ([|pass|] + pass + rest);
    ReadsBack(user, [|pass|] + pass + rest);
    ReadsBack(pass, rest);
  }

  lemma {:induction false} GreetingSplits(rest: seq<Byte>)
    ensures Take((GREETING + rest)[2..], 2) == Got([0x00, 0x02], rest)
    ensures SelectAuthMethod([0x00, 0x02]) == AUTH_USERPASS
  {
    var t := (GREETING + rest)[2..];
    assert t[..2] == [0x00, 0x02] && t[2..] == rest;
    assert [0x00, 0x02][1] == AUTH_USERPASS;
  }

  lemma {:induction false} ServerHearsAuth(user: seq<Byte>, pass: seq<Byte>, rest: seq<Byte>)
    requires |user| < 256 && |pass| < 256
    ensures Negotiate(GREETING + (AuthBytes(user, pass) + rest))
            == Passed(Some(Cred(user, pass)), rest, [0x05, AUTH_USERPASS, 0x01, 0x00])
  {
    GreetingSplits(AuthBytes(user, pass) + rest);
    SubNegotiation(user, pass, rest);
  }

  lemma {:induction false} ServerHearsGreeting(rest: seq<Byte>)
    ensures var p := Negotiate(GREETING + rest); |p.out| >= 2 && p.out[0] == 0x05 && p.out[1] == AUTH_USERPASS
  {
    GreetingSplits(rest);
  }

  lemma {:induction false} ServerHearsRequest(host: seq<Byte>, port: nat)
    requires |host| < 256 && Utf8.WellFormed(host) && port < 65536
    ensures ReadRequest(RequestBytes(host, port)) == Passed(Wanted(Domain(host), port), [], [])
  {
    var tail := [port / 256 % 256, port % 256];
    var s := RequestBytes(host, port);
    assert s[4..] == [|host|] + host + tail;
    ReadsBack(host, tail);
  }

  ghost predicate Dialogue(
    c2s: seq<Byte>, s2c: seq<Byte>, user: seq<Byte>, pass: seq<Byte>, host: seq<Byte>, port: nat, verdict: Byte)
  {
    c2s == ClientSide(s2c, user, pass, host, port).out && s2c == Serve(c2s, verdict).out
  }

  lemma {:induction false} ServeExtends(s: seq<Byte>, verdict: Byte)
    ensures Negotiate(s).out <= Serve(s, verdict).out
  {
  }

  /** How far the client has spoken, by what it has heard. */
  lemma {:induction false} ClientSpeaks(s: seq<Byte>, user: seq<Byte>, pass: seq<Byte>, host: seq<Byte>, port: nat)
    requires |user| < 256 && |pass| < 256 && |host| < 256
    ensures var out := ClientSide(s, user, pass, host, port).out;
            && GREETING <= out
            && (|s| >= 2 && s[0] == 0x05 && s[1] == AUTH_USERPASS ==> GREETING + AuthBytes(user, pass) <= out)
            && (|s| >= 4 && s[0] == 0x05 && s[1] == AUTH_USERPASS && s[3] == 0x00 ==>
                  out == GREETING + AuthBytes(user, pass) + RequestBytes(host, port))
  {
  }

  lemma {:induction false} ClientHears(user: seq<Byte>, pass: seq<Byte>, host: seq<Byte>, port: nat, verdict: Byte)
    requires |user| < 256 && |pass| < 256 && |host| < 256
    ensures var sent := GREETING + AuthBytes(user, pass) + RequestBytes(host, port);
            ClientSide([0x05, AUTH_USERPASS, 0x01, 0x00] + EncodeReply(verdict), user, pass, host, port)
            == if verdict == SUCCEEDED then Accepted(sent, []) else Refused(sent)
  {
  }

  lemma {:induction false} ServerHears(user: seq<Byte>, pass: seq<Byte>, host: seq<Byte>, port: nat, verdict: Byte)
    requires |user| < 256 && |pass| < 256 && |host| < 256 && Utf8.WellFormed(host) && port < 65536
    ensures Serve(GREETING + AuthBytes(user, pass) + RequestBytes(host, port), verdict)
            == Passed(Served(Some(Cred(user, pass)), Wanted(Domain(host), port)), [],
                      [0x05, AUTH_USERPASS, 0x01, 0x00] + EncodeReply(verdict))
  {
    var auth, ask := AuthBytes(user, pass), RequestBytes(host, port);
    assert GREETING + auth + ask == GREETING + (auth + ask);
    ServerHearsAuth(user, pass, ask);
    ServerHearsRequest(host, port);
    var out := [0x05, AUTH_USERPASS, 0x01, 0x00];
    assert out + [] == out;
  }

  lemma {:induction false} PrefixSplits(a: seq<Byte>, s: seq<Byte>)
    requires a <= s
    ensures s == a + s[|a|..]
  {
  }

  lemma {:induction false} ClientAuthenticates(
    c2s: seq<Byte>, s2c: seq<Byte>, user: seq<Byte>, pass: seq<Byte>, host: seq<Byte>, port: nat, verdict: Byte)
    requires |user| < 256 && |pass| < 256 && |host| < 256
    ensures Dialogue(c2s, s2c, user, pass, host, port, verdict) ==> GREETING + AuthBytes(user, pass) <= c2s
  {
    if Dialogue(c2s, s2c, user, pass, host, port, verdict) {
      ClientSpeaks(s2c, user, pass, host, port);
      ServeExtends(c2s, verdict);
      PrefixSplits(GREETING, c2s);
      ServerHearsGreeting(c2s[4..]);
    }
  }

  lemma {:induction false} ServerConfirms(c2s: seq<Byte>, user: seq<Byte>, pass: seq<Byte>)
    requires |user| < 256 && |pass| < 256
    requires GREETING + AuthBytes(user, pass) <= c2s
    ensures [0x05, AUTH_USERPASS, 0x01, 0x00] == Negotiate(c2s).out
  {
    var auth := AuthBytes(user, pass);
    var rest := c2s[|GREETING + auth|..];
    PrefixSplits(GREETING + auth, c2s);
    assert GREETING + auth + rest == GREETING + (auth + rest);
    ServerHearsAuth(user, pass, rest);
  }

  /** The client's stream in a dialogue is determined. */
  lemma {:induction false} DialogueBytes(
    c2s: seq<Byte>, s2c: seq<Byte>, user: seq<Byte>, pass: seq<Byte>, host: seq<Byte>, port: nat, verdict: Byte)
    requires |user| < 256 && |pass| < 256 && |host| < 256
    ensures Dialogue(c2s, s2c, user, pass, host, port, verdict) ==>
      c2s == GREETING + AuthBytes(user, pass) + RequestBytes(host, port)
  {
    if Dialogue(c2s, s2c, user, pass, host, port, verdict) {
      ClientAuthenticates(c2s, s2c, user, pass, host, port, verdict);
      ServerConfirms(c2s, user, pass);
      ServeExtends(c2s, verdict);
      ClientSpeaks(s2c, user, pass, host, port);
    }
  }

  /** Whatever the chunking, the dialogue ends one way: the server has exactly the client's
      credentials, host and port; the client accepts if and only if the verdict is success, and has
      then read exactly what the server sent. */
  lemma {:induction false} DialogueOutcome(
    c2s: seq<Byte>, s2c: seq<Byte>, user: seq<Byte>, pass: seq<Byte>, host: seq<Byte>, port: nat, verdict: Byte)
    requires |user| < 256 && |pass| < 256 && |host| < 256 && Utf8.WellFormed(host) && port < 65536
    ensures Dialogue(c2s, s2c, user, pass, host, port, verdict) ==>
      && Serve(c2s, verdict) == Passed(Served(Some(Cred(user, pass)), Wanted(Domain(host), port)), [], s2c)
      && ClientSide(s2c, user, pass, host, port) == (if verdict == SUCCEEDED then Accepted(c2s, []) else Refused(c2s))
  {
    DialogueBytes(c2s, s2c, user, pass, host, port, verdict);
    ServerHears(user, pass, host, port, verdict);
    ClientHears(user, pass, host, port, verdict);
  }

  /** And there is such a dialogue. */
  lemma {:induction false} DialogueExists(user: seq<Byte>, pass: seq<Byte>, host: seq<Byte>, port: nat, verdict: Byte)
    requires |user| < 256 && |pass| < 256 && |host| < 256 && Utf8.WellFormed(host) && port < 65536
    ensures exists c2s, s2c :: Dialogue(c2s, s2c, user, pass, host, port, verdict)
  {
    ServerHears(user, pass, host, port, verdict);
    ClientHears(user, pass, host, port, verdict);
    assert Dialogue(GREETING + AuthBytes(user, pass) + RequestBytes(host, port),
                    [0x05, AUTH_USERPASS, 0x01, 0x00] + EncodeReply(verdict), user, pass, host, port, verdict);
  }

  // ── Every greeting and every request ─────────────────────────────────────────────────────────

  function Greeting(methods: seq<Byte>): seq<Byte>
    requires |methods| < 256
  {
    [0x05, |methods|] + methods
  }

  lemma {:induction false} MethodsRead(methods: seq<Byte>, rest: seq<Byte>)
    requires |methods| < 256
    ensures var s := Greeting(methods) + rest; s[0] == 0x05 && Take(s[2..], s[1]) == Got(methods, rest)
  {
    var t := (Greeting(methods) + rest)[2..];
    assert t == methods + rest && t[..|methods|] == methods && t[|methods|..] == rest;
  }

  /** A client that offers no USER/PASS but no-auth is served without credentials. */
  lemma {:induction false} NoAuthServed(methods: seq<Byte>, rest: seq<Byte>)
    requires |methods| < 256 && 0x00 in methods && 0x02 !in methods
    ensures Negotiate(Greeting(methods) + rest) == Passed(None, rest, [0x05, 0x00])
  {
    MethodsRead(methods, rest);
  }

  /** One that offers USER/PASS, with whatever else and in whatever order, is asked for credentials,
      which are taken as they come. */
  lemma {:induction false} CredentialsServed(methods: seq<Byte>, user: seq<Byte>, pass: seq<Byte>, rest: seq<Byte>)
    requires |methods| < 256 && 0x02 in methods && |user| < 256 && |pass| < 256
    ensures Negotiate(Greeting(methods) + (AuthBytes(user, pass) + rest))
            == Passed(Some(Cred(user, pass)), rest, [0x05, 0x02, 0x01, 0x00])
  {
    MethodsRead(methods, AuthBytes(user, pass) + rest);
    SubNegotiation(user, pass, rest);
  }

  /** One that offers neither is refused, and so is a wrong version at either point. */
  lemma {:induction false} OffersRefused(methods: seq<Byte>, rest: seq<Byte>, version: Byte)
    requires |methods| < 256
    ensures 0x00 !in methods && 0x02 !in methods ==>
      Negotiate(Greeting(methods) + rest) == Failed([0x05, 0xFF])
    ensures 0x02 in methods && version != 0x01 ==>
      Negotiate(Greeting(methods) + ([version] + rest)) == Failed([0x05, 0x02, 0x01, 0x01])
    ensures version != 0x05 && |rest| > 0 ==> Negotiate([version] + rest) == Failed([])
  {
    MethodsRead(methods, rest);
    MethodsRead(methods, [version] + rest);
  }

  /** A CONNECT request for any target, as section 4 of RFC 1928 lays it out. */
  function ConnectRequest(t: Target, port: nat): seq<Byte>
    requires match t case Domain(h) => |h| < 256 case Ip(o) => |o| == 4 || |o| == 16
    requires port < 65536
  {
    var address := match t
      case Domain(h) => [0x03, |h|] + h
      case Ip(o) => [if |o| == 4 then 0x01 else 0x04] + o;
    [0x05, 0x01, 0x00] + address + [port / 256, port % 256]
  }

  lemma {:induction false} PortRead(t: Target, port: nat, rest: seq<Byte>)
    requires port < 65536
    ensures WithPort(t, [port / 256, port % 256] + rest) == Passed(Wanted(t, port), rest, [])
  {
    assert ([port / 256, port % 256] + rest)[2..] == rest;
  }

  lemma {:induction false} DomainServed(h: seq<Byte>, port: nat, rest: seq<Byte>)
    requires |h| < 256 && Utf8.WellFormed(h) && port < 65536
    ensures ReadRequest(ConnectRequest(Domain(h), port) + rest) == Passed(Wanted(Domain(h), port), rest, [])
  {
    var s, tail := ConnectRequest(Domain(h), port) + rest, [port / 256, port % 256] + rest;
    PortRead(Domain(h), port, rest);
    assert s[4..] == [|h|] + h + tail;
    ReadsBack(h, tail);
  }

  lemma {:induction false} AddressServed(o: seq<Byte>, port: nat, rest: seq<Byte>)
    requires (|o| == 4 || |o| == 16) && port < 65536
    ensures ReadRequest(ConnectRequest(Ip(o), port) + rest) == Passed(Wanted(Ip(o), port), rest, [])
  {
    var s, tail := ConnectRequest(Ip(o), port) + rest, [port / 256, port % 256] + rest;
    PortRead(Ip(o), port, rest);
    assert s[4..] == o + tail;
    assert (o + tail)[..|o|] == o && (o + tail)[|o|..] == tail;
  }

  /** Every such request is read as its target and port, with the following bytes untouched. */
  lemma {:induction false} RequestServed(t: Target, port: nat, rest: seq<Byte>)
    requires match t case Domain(h) => |h| < 256 && Utf8.WellFormed(h) case Ip(o) => |o| == 4 || |o| == 16
    requires port < 65536
    ensures ReadRequest(ConnectRequest(t, port) + rest) == Passed(Wanted(t, port), rest, [])
  {
    match t
    case Domain(h) => DomainServed(h, port, rest);
    case Ip(o) => AddressServed(o, port, rest);
  }

  /** Anything but CONNECT, an unknown address type and a host that is no UTF-8 are declined with
      their own codes. */
  lemma {:induction false} RequestDeclined(cmd: Byte, atyp: Byte, h: seq<Byte>, rest: seq<Byte>)
    requires |h| < 256
    ensures cmd != 0x01 ==> ReadRequest([0x05, cmd, 0x00, atyp] + rest) == Passed(Declined(0x07), rest, [])
    ensures atyp !in {0x01, 0x03, 0x04} ==>
      ReadRequest([0x05, 0x01, 0x00, atyp] + rest) == Passed(Declined(0x08), rest, [])
    ensures !Utf8.WellFormed(h) ==>
      ReadRequest([0x05, 0x01, 0x00, 0x03] + ([|h|] + h + rest)) == Passed(Declined(0xF6), rest, [])
  {
    assert ([0x05, cmd, 0x00, atyp] + rest)[4..] == rest;
    assert ([0x05, 0x01, 0x00, atyp] + rest)[4..] == rest;
    assert ([0x05, 0x01, 0x00, 0x03] + ([|h|] + h + rest))[4..] == [|h|] + h + rest;
    ReadsBack(h, rest);
  }

  /** A declined request is answered with its code, whatever Tor would have said. */
  lemma {:induction false} DeclineAnswered(s: seq<Byte>, verdict: Byte, code: Byte)
    requires Serve(s, verdict).Passed? && Serve(s, verdict).value.request == Declined(code)
    ensures Serve(s, verdict).out == Negotiate(s).out + [0x05, code, 0x00, 0x01, 0, 0, 0, 0, 0, 0]
  {
    assert Negotiate(s).out + [] == Negotiate(s).out;
  }

  // ── Circuit isolation ────────────────────────────────────────────────────────────────────────

  /** The isolation of one stream: keyed on its credentials, or shared with nothing. */
  datatype Isolation = ByCred(cred: Cred) | Unshared

  /** The isolation a served connection gets: without credentials it is shared with nothing. */
  function IsolationOf(auth: Option<Cred>): Isolation
  {
    match auth case Some(cred) => ByCred(cred) case None => Unshared
  }

  /** `join_same_type`; different kinds, and unshared streams, never join. */
  function Join(a: Option<Isolation>, b: Option<Isolation>): Option<Isolation>
  {
    if a.Some? && b.Some? && a.value.ByCred? && a.value == b.value then a else None
  }

  /** A circuit's isolation after merging streams in any order of joins. */
  datatype Merge = Stream(iso: Isolation) | Both(left: Merge, right: Merge)

  function Joined(m: Merge): Option<Isolation>
  {
    match m
    case Stream(iso) => Some(iso)
    case Both(l, r) => Join(Joined(l), Joined(r))
  }

  function Streams(m: Merge): set<Isolation>
  {
    match m
    case Stream(iso) => {iso}
    case Both(l, r) => Streams(l) + Streams(r)
  }

  /** Streams end up on one circuit exactly when they all carry one credential pair, whatever the
      order of the joins; an unshared stream only ever stands alone. */
  lemma {:induction false} OneCredentialPerCircuit(m: Merge)
    ensures Joined(m).Some? <==> m.Stream? || exists k :: Streams(m) == {ByCred(k)}
    ensures Joined(m).Some? ==> Streams(m) == {Joined(m).value}
  {
    if m.Both? {
      OneCredentialPerCircuit(m.left);
      OneCredentialPerCircuit(m.right);
      NonEmpty(m.left);
      NonEmpty(m.right);
      if k: Cred :| Streams(m) == {ByCred(k)} {
        assert Streams(m.left) == {ByCred(k)} && Streams(m.right) == {ByCred(k)};
        assert ByCred(k) in Streams(m.left) && ByCred(k) in Streams(m.right);
      }
    }
  }

  lemma {:induction false} NonEmpty(m: Merge)
    ensures Streams(m) != {}
  {
    if m.Both? {
      NonEmpty(m.left);
    }
  }

  /** Two served connections can share a circuit exactly when both carry one credential pair. */
  lemma {:induction false} ShareIffSameCredentials(a: Option<Cred>, b: Option<Cred>)
    ensures Joined(Both(Stream(IsolationOf(a)), Stream(IsolationOf(b)))).Some? <==> a.Some? && a == b
  {
  }

  /** So connections served without credentials never do, whatever they offered. */
  lemma {:induction false} NoAuthNeverShares(m1: seq<Byte>, s1: seq<Byte>, m2: seq<Byte>, s2: seq<Byte>)
    requires |m1| < 256 && 0x00 in m1 && 0x02 !in m1
    requires |m2| < 256 && 0x00 in m2 && 0x02 !in m2
    ensures var p, q := Negotiate(Greeting(m1) + s1), Negotiate(Greeting(m2) + s2);
      && p.Passed? && q.Passed?
      && Joined(Both(Stream(IsolationOf(p.value)), Stream(IsolationOf(q.value)))) == None
  {
    NoAuthServed(m1, s1);
    NoAuthServed(m2, s2);
  }
}
