/**
 * The two ends of the SOCKS5 dialogue on their own: the client against every server of RFC 1928, and
 * either end on a stream that is cut short or goes on.
 */
module SocksStreams {
  import opened Common
  import opened Socks

  // ── The client and any server ────────────────────────────────────────────────────────────────

  predicate Addressable(t: Target)
  {
    match t case Domain(h) => |h| < 256 case Ip(o) => |o| == 4 || |o| == 16
  }

  /** A reply as section 6 of RFC 1928 lays it out: code, bound address, the two bytes of its port. */
  function Reply(version: Byte, code: Byte, t: Target, port: seq<Byte>): seq<Byte>
    requires Addressable(t)
  {
    var address := match t
      case Domain(h) => [0x03, |h|] + h
      case Ip(o) => [if |o| == 4 then 0x01 else 0x04] + o;
    [version, code, 0x00] + (address + port)
  }

  /** The client's request is the CONNECT of section 4 for its host. */
  lemma {:induction false} RequestIsConnect(host: seq<Byte>, port: nat)
    requires |host| < 256 && port < 65536
    ensures RequestBytes(host, port) == ConnectRequest(Domain(host), port)
  {
    assert [0x05, 0x01, 0x00] + [0x03, |host|] == [0x05, 0x01, 0x00, 0x03, |host|];
    assert [0x05, 0x01, 0x00] + ([0x03, |host|] + host) == [0x05, 0x01, 0x00, 0x03, |host|] + host;
  }

  lemma {:induction false} Skipped(a: seq<Byte>, rest: seq<Byte>)
    ensures (a + rest)[|a|..] == rest
  {
  }

  lemma {:induction false} DomainBound(h: seq<Byte>, port: seq<Byte>, rest: seq<Byte>, sent: seq<Byte>)
    requires |h| < 256 && |port| == 2
    ensures Bound(h + port + rest, |h| + 2, sent) == Accepted(sent, rest)
  {
    Skipped(h + port, rest);
  }

  /** After its request the client accepts any reply with code 0, whatever address the server is bound
      to, having consumed exactly that reply; any other code, or address type, it refuses. */
  lemma {:induction false} ReplyTaken(
    version: Byte, code: Byte, t: Target, bound: seq<Byte>, rest: seq<Byte>, out: seq<Byte>, host: seq<Byte>, port: nat)
    requires Addressable(t) && |bound| == 2 && |host| < 256
    ensures var sent := out + RequestBytes(host, port);
      ClientRequest(Reply(version, code, t, bound) + rest, out, host, port) ==
        if code == 0 then Accepted(sent, rest) else Refused(sent)
  {
    var s, sent := Reply(version, code, t, bound) + rest, out + RequestBytes(host, port);
    assert s[1] == code;
    if code == 0 {
      match t
      case Domain(h) =>
        assert s[3] == 0x03 && s[4] == |h| && s[5..] == h + bound + rest;
        DomainBound(h, bound, rest, sent);
      case Ip(o) =>
        assert s[3] == (if |o| == 4 then 0x01 else 0x04) && s[4..] == o + bound + rest;
        Skipped(o + bound, rest);
    }
  }

  lemma {:induction false} ForeignReply(
    head: seq<Byte>, rest: seq<Byte>, out: seq<Byte>, host: seq<Byte>, port: nat)
    requires |head| == 4 && (head[1] != 0 || head[3] !in {0x01, 0x03, 0x04}) && |host| < 256
    ensures ClientRequest(head + rest, out, host, port) == Refused(out + RequestBytes(host, port))
  {
    assert (head + rest)[1] == head[1] && (head + rest)[3] == head[3];
  }

  /** The whole client against a server that picks either method: credentials go out exactly when they
      are asked for, and the reply decides. */
  lemma {:induction false} AnyServer(
    user: seq<Byte>, pass: seq<Byte>, host: seq<Byte>, port: nat, authVersion: Byte, reply: seq<Byte>)
    requires |user| < 256 && |pass| < 256 && |host| < 256
    ensures ClientSide([0x05, 0x00] + reply, user, pass, host, port)
            == ClientRequest(reply, [0x05, 0x02, 0x00, 0x02], host, port)
    ensures ClientSide([0x05, 0x02, authVersion, 0x00] + reply, user, pass, host, port)
            == ClientRequest(reply, [0x05, 0x02, 0x00, 0x02] + ([0x01, |user|] + user + ([|pass|] + pass)), host, port)
  {
    Skipped([0x05, 0x00], reply);
    Skipped([0x05, 0x02, authVersion, 0x00], reply);
  }

  /** It gives up on any other version or method, and on any other status of its credentials. */
  lemma {:induction false} GivesUp(
    user: seq<Byte>, pass: seq<Byte>, host: seq<Byte>, port: nat, sel: seq<Byte>, more: seq<Byte>)
    requires |user| < 256 && |pass| < 256 && |host| < 256 && |sel| >= 2
    requires sel[0] != 0x05 || sel[1] !in {0x00, 0x02} || (sel[1] == 0x02 && |sel| >= 4 && sel[3] != 0x00)
    ensures ClientSide(sel + more, user, pass, host, port).Refused?
  {
    assert forall i :: 0 <= i < |sel| ==> (sel + more)[i] == sel[i];
  }

  /** A name or credential that does not fit its length byte traps the client once it is to be sent. */
  lemma {:induction false} TooLongTraps(
    user: seq<Byte>, pass: seq<Byte>, host: seq<Byte>, port: nat, authVersion: Byte, more: seq<Byte>)
    ensures |host| > 255 ==> ClientSide([0x05, 0x00] + more, user, pass, host, port).Trapped?
    ensures |user| > 255 || |pass| > 255 || |host| > 255 ==>
      ClientSide([0x05, 0x02, authVersion, 0x00] + more, user, pass, host, port).Trapped?
  {
  }

  // ── Later bytes ──────────────────────────────────────────────────────────────────────────────

  lemma {:induction false} TakeExtends(s: seq<Byte>, more: seq<Byte>, n: nat)
    requires n <= |s|
    ensures Take(s + more, n) == Got(s[..n], s[n..] + more)
  {
    assert (s + more)[..n] == s[..n] && (s + more)[n..] == s[n..] + more;
  }

  lemma {:induction false} LenPrefixedExtends(s: seq<Byte>, more: seq<Byte>)
    requires LenPrefixed(s).Got?
    ensures LenPrefixed(s + more) == Got(LenPrefixed(s).value, LenPrefixed(s).rest + more)
  {
    TakeExtends(s, more, 1);
    TakeExtends(s[1..], more, s[0]);
  }

  /** The phase on the longer stream, once the shorter one has ended it. */
  ghost predicate Extends<T>(p: Phase<T>, q: Phase<T>, more: seq<Byte>)
  {
    match p
    case Passed(v, rest, out) => q == Passed(v, rest + more, out)
    case Failed(out) => q == p
    case Waiting(_) => true
  }

  lemma {:induction false} SubNegotiateExtends(s: seq<Byte>, more: seq<Byte>)
    ensures Extends(SubNegotiate(s), SubNegotiate(s + more), more)
  {
    if s != [] && s[0] == 0x01 {
      TakeExtends(s, more, 1);
      if LenPrefixed(s[1..]).Got? {
        LenPrefixedExtends(s[1..], more);
        var rest := LenPrefixed(s[1..]).rest;
        if LenPrefixed(rest).Got? { LenPrefixedExtends(rest, more); }
      }
    }
  }

  lemma {:induction false} NegotiateExtends(s: seq<Byte>, more: seq<Byte>)
    ensures Extends(Negotiate(s), Negotiate(s + more), more)
  {
    if |s| >= 2 {
      TakeExtends(s, more, 2);
      if |s[2..]| >= s[1] {
        TakeExtends(s[2..], more, s[1]);
        SubNegotiateExtends(s[2..][s[1]..], more);
      }
    }
  }

  lemma {:induction false} WithPortExtends(t: Target, s: seq<Byte>, more: seq<Byte>)
    ensures Extends(WithPort(t, s), WithPort(t, s + more), more)
  {
    if |s| >= 2 { TakeExtends(s, more, 2); }
  }

  lemma {:induction false} ReadRequestExtends(s: seq<Byte>, more: seq<Byte>)
    ensures Extends(ReadRequest(s), ReadRequest(s + more), more)
  {
    if |s| >= 4 {
      TakeExtends(s, more, 4);
      assert forall i :: 0 <= i < 4 ==> (s + more)[i] == s[i];
      DestinationExtends(s[3], s[4..], more);
    }
  }

  lemma {:induction false} DestinationExtends(atyp: Byte, s: seq<Byte>, more: seq<Byte>)
    ensures Extends(Destination(atyp, s), Destination(atyp, s + more), more)
  {
    if atyp == 0x03 {
      if LenPrefixed(s).Got? {
        LenPrefixedExtends(s, more);
        WithPortExtends(Domain(LenPrefixed(s).value), LenPrefixed(s).rest, more);
      }
    } else {
      var n := if atyp == 0x01 then 4 else 16;
      if n <= |s| {
        TakeExtends(s, more, n);
        WithPortExtends(Ip(s[..n]), s[n..], more);
      }
    }
  }

  /** Once the server has answered or failed, what comes later changes nothing but what is unread. */
  lemma {:induction false} ServeExtends(s: seq<Byte>, verdict: Byte, more: seq<Byte>)
    ensures Extends(Serve(s, verdict), Serve(s + more, verdict), more)
  {
    NegotiateExtends(s, more);
    if Negotiate(s).Passed? { ReadRequestExtends(Negotiate(s).rest, more); }
  }

  /** A client that is cut off before the last byte of its request is never answered. */
  lemma {:induction false} CutShortWaits(s: seq<Byte>, cut: seq<Byte>, verdict: Byte)
    requires Serve(s, verdict).Passed? && Serve(s, verdict).rest == [] && cut < s
    ensures Serve(cut, verdict).Waiting?
  {
    var more := s[|cut|..];
    assert cut + more == s;
    ServeExtends(cut, verdict, more);
  }
}
