/**
 * Reading an HTTP response over the tunnel: the header scan, the three body framings and the cap.
 *
 * The input is the sequence of bytes the peer will ever send; reading past it throws. Which framing
 * applies is decided by header fields and is a parameter here. A Swift run-time failure is `Trap`.
 */
module HttpBody {
  import opened Common

  datatype Outcome = Done(body: seq<Byte>, rest: seq<Byte>) | Throws | Trap

  const INT_MAX := 0x7fff_ffff_ffff_ffff
  const HEADER_CAP := 65536

  function CRLF(): seq<Byte> { [13, 10] }

  // ── Scanning for an end marker ───────────────────────────────────────────────────────────────

  /** The first `n` bytes end with the marker. */
  predicate EndsWith(s: seq<Byte>, n: nat, marker: seq<Byte>)
  {
    |marker| <= n <= |s| && s[n - |marker|..n] == marker
  }

  ghost predicate FirstEnd(s: seq<Byte>, n: nat, marker: seq<Byte>)
  {
    EndsWith(s, n, marker) && forall m: nat :: m < n ==> !EndsWith(s, m, marker)
  }

  /** The header loop: byte by byte up to the first blank line, at most 64 KiB. */
  method ReadHeader(input: seq<Byte>) returns (r: Outcome)
    ensures r.Done? ==>
      FirstEnd(input, |r.body|, [13, 10, 13, 10]) && r.body + r.rest == input && |r.body| <= HEADER_CAP
    ensures r.Done? || (r.Throws? && forall n: nat :: n <= HEADER_CAP ==> !EndsWith(input, n, [13, 10, 13, 10]))
  {
    var n := 0;
    while !EndsWith(input, n, [13, 10, 13, 10])
      invariant n <= |input| && n <= HEADER_CAP
      invariant forall m: nat :: m < n ==> !EndsWith(input, m, [13, 10, 13, 10])
      decreases |input| - n
    {
      if n == |input| { return Throws; }
      n := n + 1;
      if n > HEADER_CAP { return Throws; }
    }
    assert input[..n] + input[n..] == input;
    return Done(input[..n], input[n..]);
  }

  /** Length of the shortest prefix of at least `n` bytes that ends with CRLF. */
  function LineEnd(s: seq<Byte>, n: nat): (e: Option<nat>)
    requires n <= |s|
    ensures e.Some? ==> n <= e.value && EndsWith(s, e.value, CRLF())
    ensures forall m: nat :: n <= m && (e.Some? ==> m < e.value) ==> !EndsWith(s, m, CRLF())
    decreases |s| - n
  {
    if EndsWith(s, n, CRLF()) then Some(n) else if n == |s| then None else LineEnd(s, n + 1)
  }

  method ReadLine(input: seq<Byte>) returns (e: Option<nat>)
    ensures e == LineEnd(input, 0)
    ensures e.Some? ==> FirstEnd(input, e.value, [13, 10])
    ensures e.None? ==> forall n: nat :: !EndsWith(input, n, [13, 10])
  {
    var n := 0;
    while !EndsWith(input, n, CRLF())
      invariant n <= |input| && LineEnd(input, 0) == LineEnd(input, n)
      decreases |input| - n
    {
      if n == |input| { return None; }
      n := n + 1;
    }
    return Some(n);
  }

  // ── The chunk size ───────────────────────────────────────────────────────────────────────────

  /** White space and newlines among the first 256 code points. */
  predicate Space(c: Byte) { 9 <= c <= 13 || c == 32 || c == 0x85 || c == 0xa0 }

  function TrimStart(s: seq<Byte>): seq<Byte> { if s != [] && Space(s[0]) then TrimStart(s[1..]) else s }

  function TrimEnd(s: seq<Byte>): seq<Byte> { if s != [] && Space(s[|s| - 1]) then TrimEnd(s[..|s| - 1]) else s }

  function Trim(s: seq<Byte>): seq<Byte> { TrimEnd(TrimStart(s)) }

  /** What stands before the first semicolon. */
  function Before(s: seq<Byte>): seq<Byte> { if s == [] || s[0] == 59 then [] else [s[0]] + Before(s[1..]) }

  function HexDigit(c: Byte): Option<nat>
  {
    if 48 <= c <= 57 then Some(c - 48)
    else if 65 <= c <= 70 then Some(c - 55)
    else if 97 <= c <= 102 then Some(c - 87)
    else None
  }

  predicate Hex(s: seq<Byte>) { s != [] && forall i :: 0 <= i < |s| ==> HexDigit(s[i]).Some? }

  function HexValue(s: seq<Byte>): nat
  {
    if s == [] then 0
    else 16 * HexValue(s[..|s| - 1]) + match HexDigit(s[|s| - 1]) case Some(v) => v case None => 0
  }

  /** Swift's `Int(_, radix: 16)` on 64 bits: an optional sign, then digits only. */
  function ParseHex(s: seq<Byte>): Option<int>
  {
    var signed := s != [] && (s[0] == 43 || s[0] == 45);
    var digits := if signed then s[1..] else s;
    if !Hex(digits) then None
    else if signed && s[0] == 45 then
      (if HexValue(digits) <= INT_MAX + 1 then Some(-(HexValue(digits) as int)) else None)
    else if HexValue(digits) <= INT_MAX then Some(HexValue(digits)) else None
  }

  /** An unreadable size counts as zero. */
  function ChunkSize(line: seq<Byte>): int
  {
    match ParseHex(Before(Trim(line))) case Some(v) => v case None => 0
  }

  // ── The chunked body ─────────────────────────────────────────────────────────────────────────

  /** `maxBytes` is any Swift `Int`. */
  function Chunks(body: seq<Byte>, input: seq<Byte>, maxBytes: int): Outcome
    decreases |input|
  {
    match LineEnd(input, 0)
    case None => Throws
    case Some(n) =>
      var size, rest := ChunkSize(input[..n]), input[n..];
      if size == 0 then Done(body, rest)
      else if |body| + size > INT_MAX then Trap
      else if |body| + size > maxBytes then Throws
      else if size < 0 then Trap
      else if size + 2 > |rest| then Throws
      else Chunks(body + rest[..size], rest[size + 2..], maxBytes)
  }

  method ReadChunked(input: seq<Byte>, maxBytes: int) returns (r: Outcome)
    ensures r == Chunks([], input, maxBytes)
  {
    var body, rest := [], input;
    while true
      invariant Chunks(body, rest, maxBytes) == Chunks([], input, maxBytes)
      decreases |rest|
    {
      var n := ReadLine(rest);
      if n.None? { return Throws; }
      var size := ChunkSize(rest[..n.value]);
      rest := rest[n.value..];
      if size == 0 { return Done(body, rest); }
      if |body| + size > INT_MAX { return Trap; }
      if |body| + size > maxBytes { return Throws; }
      if size < 0 { return Trap; }
      if |rest| < size { return Throws; }
      body, rest := body + rest[..size], rest[size..];
      if |rest| < 2 { return Throws; }
      rest := rest[2..];
    }
  }

  datatype Framing = Chunked | Length(len: int) | UntilQuiet(available: nat)

  /** The body in any of the framings. `available` is how often the stream says there is more. */
  method ReadBody(framing: Framing, input: seq<Byte>, maxBytes: int) returns (r: Outcome)
    ensures r.Done? ==> |r.body| <= (if maxBytes > 0 then maxBytes else 0)
    ensures r.Done? && !framing.Chunked? ==> r.body + r.rest == input
    ensures framing.Chunked? ==> r == Chunks([], input, maxBytes)
    ensures framing.Length? && r.Done? ==> |r.body| == if framing.len > 0 then framing.len else 0
    ensures framing.Length? ==> (r.Done? <==> framing.len <= maxBytes && framing.len <= |input|)
    ensures framing.UntilQuiet? && r.Done? ==> |r.body| == framing.available
    ensures framing.UntilQuiet? ==>
      (r.Done? <==> framing.available <= |input| && (framing.available == 0 || framing.available <= maxBytes))
    ensures !framing.Chunked? ==> !r.Trap?
  {
    match framing
    case Chunked =>
      CapHolds([], input, maxBytes);
      r := ReadChunked(input, maxBytes);
    case Length(len) =>
      if len > maxBytes { return Throws; }
      if len <= 0 { return Done([], input); }
      if len > |input| { return Throws; }
      assert input[..len] + input[len..] == input;
      return Done(input[..len], input[len..]);
    case UntilQuiet(available) =>
      var n := 0;
      while n < available
        invariant n <= available && n <= |input|
        invariant n > 0 ==> n <= maxBytes
      {
        if n == |input| { return Throws; }
        n := n + 1;
        if n > maxBytes { return Throws; }
      }
      assert input[..n] + input[n..] == input;
      return Done(input[..n], input[n..]);
  }

  /** No accepted chunked body exceeds the cap. */
  lemma {:induction false} CapHolds(body: seq<Byte>, input: seq<Byte>, maxBytes: int)
    requires body == [] || |body| <= maxBytes
    ensures var r := Chunks(body, input, maxBytes);
      r.Done? ==> body <= r.body && (r.body == [] || |r.body| <= maxBytes)
    decreases |input|
  {
    var e := LineEnd(input, 0);
    if e.Some? {
      var size, rest := ChunkSize(input[..e.value]), input[e.value..];
      if 0 < size && |body| + size <= maxBytes && size + 2 <= |rest| {
        CapHolds(body + rest[..size], rest[size + 2..], maxBytes);
      }
    }
  }

  // ── What is sent, and that it is what is read ────────────────────────────────────────────────

  /** A chunk as the peer may send it: any spelling of its size, any extension, its data. */
  datatype Chunk = Chunk(digits: seq<Byte>, ext: seq<Byte>, data: seq<Byte>)

  predicate NoLine(s: seq<Byte>) { LineEnd(s, 0).None? }

  /** After the digits: blanks only, or an extension that starts with its semicolon. */
  predicate Extension(ext: seq<Byte>)
  {
    (forall i :: 0 <= i < |ext| ==> Space(ext[i])) || ext[0] == 59
  }

  ghost predicate WellFormed(c: Chunk)
  {
    Hex(c.digits) && HexValue(c.digits) == |c.data| && Extension(c.ext) && NoLine(c.digits + c.ext)
  }

  function Sent(c: Chunk): seq<Byte> { c.digits + c.ext + CRLF() + (c.data + CRLF()) }

  function SentAll(cs: seq<Chunk>, end: seq<Byte>): seq<Byte>
  {
    if cs == [] then end else Sent(cs[0]) + SentAll(cs[1..], end)
  }

  function Joined(cs: seq<Chunk>): seq<Byte> { if cs == [] then [] else cs[0].data + Joined(cs[1..]) }

  lemma {:induction false} SamePrefix(l: seq<Byte>, more: seq<Byte>, n: nat)
    ensures n <= |l| ==> EndsWith(l + more, n, CRLF()) == EndsWith(l, n, CRLF())
  {
  }

  lemma {:induction false} LineFirst(l: seq<Byte>, more: seq<Byte>, n: nat)
    requires n <= |l| + 2 && NoLine(l)
    ensures LineEnd(l + CRLF() + more, n) == Some(|l| + 2)
    decreases |l| + 2 - n
  {
    var s := l + CRLF() + more;
    assert s == l + (CRLF() + more);
    if n == |l| + 2 {
      assert s[|l|..|l| + 2] == CRLF();
    } else {
      assert n <= |l| ==> EndsWith(s, n, CRLF()) == EndsWith(l, n, CRLF()) by { SamePrefix(l, CRLF() + more, n); }
      assert n == |l| + 1 ==> s[n - 1] == 13;
      assert n >= 2 ==> s[n - 2..n][1] == s[n - 1];
      LineFirst(l, more, n + 1);
    }
  }

  lemma {:induction false} TrimEndKeeps(a: seq<Byte>, t: seq<Byte>)
    requires a != [] && !Space(a[|a| - 1])
    ensures TrimEnd(a + t) == a + TrimEnd(t)
  {
    if t == [] || !Space(t[|t| - 1]) {
      assert t == [] ==> a + t == a;
    } else {
      var u := t[..|t| - 1];
      TrimEndKeeps(a, u);
      assert (a + t)[..|a + t| - 1] == a + u;
    }
  }

  lemma {:induction false} TrimEndBlank(t: seq<Byte>)
    requires forall i :: 0 <= i < |t| ==> Space(t[i])
    ensures TrimEnd(t) == []
  {
    if t != [] { TrimEndBlank(t[..|t| - 1]); }
  }

  lemma {:induction false} BeforeSemicolon(d: seq<Byte>, u: seq<Byte>)
    requires Hex(d) && (u == [] || u[0] == 59)
    ensures Before(d + u) == d
  {
    assert (d + u)[1..] == d[1..] + u;
    if |d| > 1 { BeforeSemicolon(d[1..], u); } else { assert d[1..] + u == u; }
    assert [d[0]] + d[1..] == d;
  }

  lemma {:induction false} SizeText(d: seq<Byte>, ext: seq<Byte>)
    requires Hex(d) && Extension(ext)
    ensures Before(Trim(d + ext + CRLF())) == d
  {
    var line := d + ext + CRLF();
    assert TrimStart(line) == line;
    if forall i :: 0 <= i < |ext| ==> Space(ext[i]) {
      assert line == d + (ext + CRLF());
      TrimEndKeeps(d, ext + CRLF());
      TrimEndBlank(ext + CRLF());
      BeforeSemicolon(d, []);
      assert d + [] == d;
    } else {
      var a, t := d + [59], ext[1..] + CRLF();
      assert line == a + t;
      TrimEndKeeps(a, t);
      assert a + TrimEnd(t) == d + ([59] + TrimEnd(t));
      BeforeSemicolon(d, [59] + TrimEnd(t));
    }
  }

  /** The size of a well-formed line is the number its digits spell. */
  lemma {:induction false} SizeRead(d: seq<Byte>, ext: seq<Byte>)
    requires Hex(d) && Extension(ext) && HexValue(d) <= INT_MAX
    ensures ChunkSize(d + ext + CRLF()) == HexValue(d)
  {
    SizeText(d, ext);
    assert HexDigit(d[0]).Some?;
  }

  const LOWER: seq<Byte> := [48, 49, 50, 51, 52, 53, 54, 55, 56, 57, 97, 98, 99, 100, 101, 102]
  const UPPER: seq<Byte> := [48, 49, 50, 51, 52, 53, 54, 55, 56, 57, 65, 66, 67, 68, 69, 70]

  /** The number in hexadecimal, without leading zeros. */
  function HexText(n: nat, digits: seq<Byte>): seq<Byte>
    requires |digits| == 16
  {
    if n < 16 then [digits[n]] else HexText(n / 16, digits) + [digits[n % 16]]
  }

  /** Numbers are read as they are written in base sixteen, in either case. */
  lemma {:induction false} HexReadsBack(n: nat, digits: seq<Byte>)
    requires digits == LOWER || digits == UPPER
    ensures Hex(HexText(n, digits)) && HexValue(HexText(n, digits)) == n
  {
    var d := HexText(n, digits);
    DigitReadsBack(n % 16, digits);
    if n < 16 {
      assert d[..0] == [] && HexValue(d) == 16 * HexValue(d[..0]) + n;
    } else {
      HexReadsBack(n / 16, digits);
      assert d[..|d| - 1] == HexText(n / 16, digits);
    }
  }

  lemma {:induction false} DigitReadsBack(k: nat, digits: seq<Byte>)
    requires (digits == LOWER || digits == UPPER) && k < 16
    ensures HexDigit(digits[k]) == Some(k)
  {
  }

  lemma {:induction false} ChunkRead(body: seq<Byte>, c: Chunk, more: seq<Byte>, maxBytes: int)
    requires WellFormed(c) && c.data != [] && |body| + |c.data| <= maxBytes <= INT_MAX
    ensures Chunks(body, Sent(c) + more, maxBytes) == Chunks(body + c.data, more, maxBytes)
  {
    var l := c.digits + c.ext;
    var tail := c.data + CRLF() + more;
    var input := Sent(c) + more;
    assert input == l + CRLF() + tail;
    LineFirst(l, tail, 0);
    var n := |l| + 2;
    assert input[..n] == l + CRLF();
    assert input[n..] == tail;
    SizeRead(c.digits, c.ext);
    assert tail[..|c.data|] == c.data;
    assert tail[|c.data| + 2..] == more;
  }

  lemma {:induction false} LastRead(body: seq<Byte>, last: Chunk, trailer: seq<Byte>, maxBytes: int)
    requires WellFormed(last) && last.data == []
    ensures Chunks(body, last.digits + last.ext + CRLF() + trailer, maxBytes) == Done(body, trailer)
  {
    var l := last.digits + last.ext;
    var end := l + CRLF() + trailer;
    LineFirst(l, trailer, 0);
    assert end[..|l| + 2] == l + CRLF();
    assert end[|l| + 2..] == trailer;
    SizeRead(last.digits, last.ext);
  }

  ghost predicate Sendable(cs: seq<Chunk>)
  {
    forall i :: 0 <= i < |cs| ==> WellFormed(cs[i]) && cs[i].data != []
  }

  /** Every body, however cut into nonempty chunks and however their sizes and extensions are
      spelled, is read back whole, and reading stops right after the last-chunk line. */
  lemma {:induction false} ChunkedRoundTrip(
    body: seq<Byte>, cs: seq<Chunk>, last: Chunk, trailer: seq<Byte>, maxBytes: int)
    requires Sendable(cs) && WellFormed(last) && last.data == []
    requires |body| + |Joined(cs)| <= maxBytes <= INT_MAX
    ensures var end := last.digits + last.ext + CRLF() + trailer;
      Chunks(body, SentAll(cs, end), maxBytes) == Done(body + Joined(cs), trailer)
    decreases |cs|
  {
    var end := last.digits + last.ext + CRLF() + trailer;
    if cs == [] {
      LastRead(body, last, trailer, maxBytes);
      assert body + [] == body;
    } else {
      assert WellFormed(cs[0]) && Sendable(cs[1..]);
      ChunkRead(body, cs[0], SentAll(cs[1..], end), maxBytes);
      ChunkedRoundTrip(body + cs[0].data, cs[1..], last, trailer, maxBytes);
      Assoc(body, cs[0].data, Joined(cs[1..]));
    }
  }

  lemma {:induction false} Assoc(a: seq<Byte>, b: seq<Byte>, c: seq<Byte>)
    ensures (a + b) + c == a + (b + c)
  {
  }

  /** Blanks between the size and its semicolon make the size unreadable. Section 7.1.1 of RFC 9112
      has them in its grammar: no sender may generate them, but a recipient is to accept them. */
  lemma {:induction false} BlankSize(d: seq<Byte>, blanks: seq<Byte>, ext: seq<Byte>)
    requires Hex(d) && 0 < HexValue(d) <= INT_MAX && forall i :: 0 <= i < |blanks| ==> blanks[i] == 32 || blanks[i] == 9
    ensures ChunkSize(d + blanks + [59] + ext + CRLF()) == (if blanks == [] then HexValue(d) else 0)
  {
    var line := d + blanks + [59] + ext + CRLF();
    if blanks == [] {
      assert line == d + ([59] + ext) + CRLF();
      SizeRead(d, [59] + ext);
    } else {
      assert TrimStart(line) == line;
      var a, t := d + blanks + [59], ext + CRLF();
      assert line == a + t;
      TrimEndKeeps(a, t);
      BeforeKeeps(d + blanks, [59] + TrimEnd(t));
      assert a + TrimEnd(t) == d + blanks + ([59] + TrimEnd(t));
      var b := d + blanks;
      assert HexDigit(b[0]).Some? && HexDigit(b[|b| - 1]).None?;
      assert !Hex(b);
    }
  }

  /** Reading on never takes back what was read. */
  lemma {:induction false} BodyGrows(body: seq<Byte>, input: seq<Byte>, maxBytes: int)
    ensures var r := Chunks(body, input, maxBytes); r.Done? ==> body <= r.body
    decreases |input|
  {
    var e := LineEnd(input, 0);
    if e.Some? {
      var size, rest := ChunkSize(input[..e.value]), input[e.value..];
      if 0 < size && size + 2 <= |rest| { BodyGrows(body + rest[..size], rest[size + 2..], maxBytes); }
    }
  }

  /** Such a chunk, whatever follows it, is taken for the last one, and the body ends before its data,
      if and only if there are blanks. */
  lemma {:induction false} BlankBeforeSemicolon(
    body: seq<Byte>, d: seq<Byte>, blanks: seq<Byte>, ext: seq<Byte>, more: seq<Byte>, maxBytes: int)
    requires Hex(d) && 0 < HexValue(d) <= INT_MAX && forall i :: 0 <= i < |blanks| ==> blanks[i] == 32 || blanks[i] == 9
    requires NoLine(d + blanks + [59] + ext)
    ensures Chunks(body, d + blanks + [59] + ext + CRLF() + more, maxBytes) == Done(body, more) <==> blanks != []
  {
    var l := d + blanks + [59] + ext;
    var input, n := l + CRLF() + more, |l| + 2;
    LineFirst(l, more, 0);
    assert input[..n] == l + CRLF() && input[n..] == more;
    BlankSize(d, blanks, ext);
    var size := HexValue(d);
    if blanks == [] && size + 2 <= |more| {
      BodyGrows(body + more[..size], more[size + 2..], maxBytes);
    }
  }

  lemma {:induction false} BeforeKeeps(s: seq<Byte>, u: seq<Byte>)
    requires (forall i :: 0 <= i < |s| ==> s[i] != 59) && u != [] && u[0] == 59
    ensures Before(s + u) == s
  {
    if s == [] {
      assert s + u == u;
    } else {
      BeforeKeeps(s[1..], u);
      assert (s + u)[1..] == s[1..] + u;
      assert [s[0]] + s[1..] == s;
    }
  }

  // ── An input that ends early, a body that is too long ────────────────────────────────────────

  lemma {:induction false} LineEndExtends(s: seq<Byte>, more: seq<Byte>, n: nat)
    requires n <= |s| && LineEnd(s, n).Some?
    ensures LineEnd(s + more, n) == LineEnd(s, n)
    decreases |s| - n
  {
    SamePrefix(s, more, n);
    if !EndsWith(s, n, CRLF()) { LineEndExtends(s, more, n + 1); }
  }

  lemma {:induction false} LaterCut(s: seq<Byte>, more: seq<Byte>, n: nat)
    requires n <= |s|
    ensures (s + more)[..n] == s[..n] && (s + more)[n..] == s[n..] + more
  {
  }

  ghost predicate Extends(o: Outcome, longer: Outcome, more: seq<Byte>)
  {
    match o
    case Done(b, r) => longer == Done(b, r + more)
    case Trap => longer == Trap
    case Throws => true
  }

  lemma {:induction false} LineExtends(s: seq<Byte>, more: seq<Byte>, n: nat)
    requires LineEnd(s, 0) == Some(n)
    ensures LineEnd(s + more, 0) == Some(n) && (s + more)[..n] == s[..n] && (s + more)[n..] == s[n..] + more
  {
    LineEndExtends(s, more, 0);
    LaterCut(s, more, n);
  }

  lemma {:induction false} OneChunk(
    body: seq<Byte>, s: seq<Byte>, maxBytes: int, n: nat, size: nat, rest: seq<Byte>)
    requires LineEnd(s, 0) == Some(n) && s[n..] == rest && ChunkSize(s[..n]) == size
    requires 0 < size && |body| + size <= maxBytes && |body| + size <= INT_MAX && size + 2 <= |rest|
    ensures Chunks(body, s, maxBytes) == Chunks(body + rest[..size], rest[size + 2..], maxBytes)
  {
  }

  lemma {:induction false} LongerChunk(
    body: seq<Byte>, s: seq<Byte>, more: seq<Byte>, maxBytes: int, n: nat, size: nat, rest: seq<Byte>)
    requires LineEnd(s, 0) == Some(n) && s[n..] == rest && ChunkSize(s[..n]) == size
    requires 0 < size && |body| + size <= maxBytes && |body| + size <= INT_MAX && size + 2 <= |rest|
    ensures Chunks(body, s + more, maxBytes) == Chunks(body + rest[..size], rest[size + 2..] + more, maxBytes)
  {
    LineExtends(s, more, n);
    LaterCut(rest, more, size);
    LaterCut(rest, more, size + 2);
    OneChunk(body, s + more, maxBytes, n, size, rest + more);
  }

  /** An outcome other than a throw does not depend on what comes later. */
  lemma {:induction false} LaterBytesDoNotMatter(body: seq<Byte>, s: seq<Byte>, more: seq<Byte>, maxBytes: int)
    ensures Extends(Chunks(body, s, maxBytes), Chunks(body, s + more, maxBytes), more)
    decreases |s|
  {
    var e := LineEnd(s, 0);
    if e.Some? {
      var size, rest := ChunkSize(s[..e.value]), s[e.value..];
      if 0 < size && |body| + size <= maxBytes && |body| + size <= INT_MAX && size + 2 <= |rest| {
        OneChunk(body, s, maxBytes, e.value, size, rest);
        LongerChunk(body, s, more, maxBytes, e.value, size, rest);
        LaterBytesDoNotMatter(body + rest[..size], rest[size + 2..], more, maxBytes);
      } else {
        LineExtends(s, more, e.value);
      }
    }
  }

  /** A body whose last-chunk line has not wholly arrived is never accepted: whatever proper prefix of
      it the peer sends before it is gone, the reader throws. */
  lemma {:induction false} CutShortThrows(cs: seq<Chunk>, last: Chunk, cut: seq<Byte>, maxBytes: int)
    requires Sendable(cs) && WellFormed(last) && last.data == [] && |Joined(cs)| <= maxBytes <= INT_MAX
    requires cut < SentAll(cs, last.digits + last.ext + CRLF())
    ensures Chunks([], cut, maxBytes) == Throws
  {
    var end := last.digits + last.ext + CRLF();
    var all := SentAll(cs, end);
    var more := all[|cut|..];
    assert end == end + [];
    ChunkedRoundTrip([], cs, last, [], maxBytes);
    LaterBytesDoNotMatter([], cut, more, maxBytes);
    assert cut + more == all;
  }

  /** One chunk as it was read: its size line, its data and the two bytes after it. */
  datatype Piece = Piece(line: seq<Byte>, data: seq<Byte>, after: seq<Byte>)

  ghost predicate Whole(p: Piece)
  {
    LineEnd(p.line, 0) == Some(|p.line|) && ChunkSize(p.line) == |p.data| > 0 && |p.after| == 2
  }

  ghost function Read(ps: seq<Piece>): seq<Byte>
  {
    if ps == [] then [] else ps[0].line + (ps[0].data + ps[0].after) + Read(ps[1..])
  }

  ghost function Data(ps: seq<Piece>): seq<Byte> { if ps == [] then [] else ps[0].data + Data(ps[1..]) }

  lemma {:induction false} LineItself(s: seq<Byte>, n: nat, k: nat)
    requires k <= n <= |s| && LineEnd(s, k) == Some(n)
    ensures LineEnd(s[..n], k) == Some(n)
    decreases n - k
  {
    assert s == s[..n] + s[n..];
    SamePrefix(s[..n], s[n..], k);
    if !EndsWith(s, k, CRLF()) { LineItself(s, n, k + 1); }
  }

  /** `ps` and `line` explain how reading `s` ended in `r`. */
  ghost predicate Explains(ps: seq<Piece>, line: seq<Byte>, body: seq<Byte>, s: seq<Byte>, r: Outcome)
    requires r.Done?
  {
    && (forall i :: 0 <= i < |ps| ==> Whole(ps[i]))
    && LineEnd(line, 0) == Some(|line|) && ChunkSize(line) == 0
    && s == Read(ps) + (line + r.rest) && r.body == body + Data(ps)
  }

  lemma {:induction false} OnePieceMore(
    p: Piece, ps: seq<Piece>, line: seq<Byte>, body: seq<Byte>, s: seq<Byte>, r: Outcome)
    requires r.Done? && Whole(p) && Explains(ps, line, body + p.data, s, r)
    ensures Explains([p] + ps, line, body, p.line + (p.data + p.after) + s, r)
  {
    assert ([p] + ps)[1..] == ps;
    Assoc(p.line + (p.data + p.after), Read(ps), line + r.rest);
    Assoc(body, p.data, Data(ps));
  }

  lemma {:induction false} CutInFour(s: seq<Byte>, n: nat, size: nat)
    requires n + size + 2 <= |s|
    ensures var rest := s[n..]; s == s[..n] + (rest[..size] + rest[size..size + 2]) + rest[size + 2..]
  {
  }

  /** An accepted reading is a sequence of whole chunks and a line of size zero, and nothing else: the
      body is their data in order, and what follows that line is left unread. */
  lemma {:induction false} AcceptedIsWhole(body: seq<Byte>, s: seq<Byte>, maxBytes: int)
    returns (ps: seq<Piece>, line: seq<Byte>)
    requires Chunks(body, s, maxBytes).Done?
    ensures Explains(ps, line, body, s, Chunks(body, s, maxBytes))
    decreases |s|
  {
    var n := LineEnd(s, 0).value;
    var size, rest := ChunkSize(s[..n]), s[n..];
    LineItself(s, n, 0);
    if size == 0 {
      ps, line := [], s[..n];
      LastLine(line, body, rest);
      assert s == line + rest;
    } else {
      var p := Piece(s[..n], rest[..size], rest[size..size + 2]);
      ps, line := AcceptedIsWhole(body + p.data, rest[size + 2..], maxBytes);
      CutInFour(s, n, size);
      OnePieceMore(p, ps, line, body, rest[size + 2..], Chunks(body, s, maxBytes));
      ps := [p] + ps;
    }
  }

  lemma {:induction false} LastLine(line: seq<Byte>, body: seq<Byte>, rest: seq<Byte>)
    requires LineEnd(line, 0) == Some(|line|) && ChunkSize(line) == 0
    ensures Explains([], line, body, line + rest, Done(body, rest))
  {
    assert Read([]) + (line + rest) == line + rest && body + Data([]) == body;
  }

  /** The size decides before any data is read: beyond the cap the reader throws, unless the sum
      overflows `Int`, which traps. */
  lemma {:induction false} OverCapThrows(
    body: seq<Byte>, d: seq<Byte>, ext: seq<Byte>, more: seq<Byte>, maxBytes: int)
    requires Hex(d) && Extension(ext) && NoLine(d + ext) && 0 < HexValue(d) <= INT_MAX
    requires maxBytes < |body| + HexValue(d)
    ensures Chunks(body, d + ext + CRLF() + more, maxBytes) ==
      if |body| + HexValue(d) > INT_MAX then Trap else Throws
  {
    var l := d + ext;
    LineFirst(l, more, 0);
    assert (l + CRLF() + more)[..|l| + 2] == l + CRLF();
    SizeRead(d, ext);
  }

  // ── Spellings of the size ────────────────────────────────────────────────────────────────────

  /** Only the digits of base sixteen are read. */
  lemma {:induction false} HexDigitsOnly(c: Byte)
    ensures HexDigit(c).Some? <==> c in LOWER || c in UPPER
  {
    if HexDigit(c).Some? {
      var v := HexDigit(c).value;
      assert v < 16 && (LOWER[v] == c || UPPER[v] == c);
    } else {
      assert forall k :: 0 <= k < 16 ==> LOWER[k] != c && UPPER[k] != c;
    }
  }

  lemma {:induction false} TrimStartBlank(blanks: seq<Byte>, s: seq<Byte>)
    requires (forall i :: 0 <= i < |blanks| ==> blanks[i] == 32 || blanks[i] == 9) && s != [] && !Space(s[0])
    ensures TrimStart(blanks + s) == s
  {
    if blanks == [] {
      assert blanks + s == s;
    } else {
      TrimStartBlank(blanks[1..], s);
      assert (blanks + s)[1..] == blanks[1..] + s;
    }
  }

  /** Blanks around the size do no harm where no semicolon follows. */
  lemma {:induction false} SizeAmongBlanks(before: seq<Byte>, d: seq<Byte>, after: seq<Byte>)
    requires forall i :: 0 <= i < |before| ==> before[i] == 32 || before[i] == 9
    requires forall i :: 0 <= i < |after| ==> after[i] == 32 || after[i] == 9
    requires Hex(d) && HexValue(d) <= INT_MAX
    ensures ChunkSize(before + (d + after + [13, 10])) == HexValue(d)
  {
    assert HexDigit(d[0]).Some?;
    TrimStartBlank(before, d + after + CRLF());
    SizeText(d, after);
    SizeRead(d, after);
    assert TrimStart(d + after + CRLF()) == d + after + CRLF();
  }

  lemma {:induction false} SignedText(sign: Byte, d: seq<Byte>)
    requires (sign == 43 || sign == 45) && Hex(d)
    ensures Before(Trim([sign] + d + CRLF())) == [sign] + d
  {
    var a := [sign] + d;
    assert TrimStart(a + CRLF()) == a + CRLF();
    assert HexDigit(d[|d| - 1]).Some?;
    TrimEndKeeps(a, CRLF());
    TrimEndBlank(CRLF());
    assert a + [] == a;
    NoSemicolon(a);
  }

  lemma {:induction false} NoSemicolon(s: seq<Byte>)
    requires forall i :: 0 <= i < |s| ==> s[i] != 59
    ensures Before(s) == s
  {
    if s != [] {
      NoSemicolon(s[1..]);
      assert [s[0]] + s[1..] == s;
    }
  }

  /** Swift reads a sign as well. */
  lemma {:induction false} SignedSize(sign: Byte, d: seq<Byte>)
    requires (sign == 43 || sign == 45) && Hex(d) && HexValue(d) <= INT_MAX
    ensures ChunkSize([sign] + d + CRLF()) == if sign == 45 then -(HexValue(d) as int) else HexValue(d)
  {
    SignedText(sign, d);
    assert ([sign] + d)[1..] == d;
  }

  lemma {:induction false} OneLine(s: seq<Byte>)
    requires forall i :: 0 <= i < |s| ==> s[i] != 10
    ensures NoLine(s)
  {
    forall m: nat
      ensures !EndsWith(s, m, CRLF())
    {
      assert 2 <= m <= |s| ==> s[m - 2..m][1] == s[m - 1];
    }
  }

  /** So a negative size gets past the cap and traps when that many bytes are to be read. */
  lemma {:induction false} NegativeSizeTraps(body: seq<Byte>, d: seq<Byte>, more: seq<Byte>, maxBytes: int)
    requires Hex(d) && 0 < HexValue(d) <= INT_MAX && |body| <= maxBytes <= INT_MAX
    ensures Chunks(body, [45] + d + CRLF() + more, maxBytes) == Trap
  {
    var l := [45] + d;
    OneLine(l);
    LineFirst(l, more, 0);
    assert (l + CRLF() + more)[..|l| + 2] == l + CRLF();
    SignedSize(45, d);
  }
}
