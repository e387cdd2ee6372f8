/**
 * The WebSocket frame codec and read loop of the SOCKS-tunnelled socket (sections 5.2 to 5.5 of
 * RFC 6455).
 *
 * `EncodeFrame` is the wire format for any frame a peer may send: any reserved bits, masked or
 * not, any length form that fits. `ParseFrame` is what the reader accepts. `Loop` is the read loop
 * over a byte stream; `WriteFrame`, `ReadFrame` and `ReadLoop` are the imperative code.
 */
module WsFrames {
  import opened Common

  const OP_CONTINUATION := 0x0
  const OP_TEXT := 0x1
  const OP_CLOSE := 0x8
  const OP_PING := 0x9

  /** Swift's `Int` conversion traps at this length. */
  const INT_LIMIT: nat := 0x8000_0000_0000_0000

  // ── Masking and big-endian lengths ───────────────────────────────────────────────────────────

  /** Bitwise exclusive or of the low `n` bits. */
  function XorBits(a: nat, b: nat, n: nat): nat
  {
    if n == 0 then 0 else (if a % 2 == b % 2 then 0 else 1) + 2 * XorBits(a / 2, b / 2, n - 1)
  }

  lemma {:induction false} XorBitsTwice(a: nat, b: nat, n: nat)
    requires a < Pow(2, n)
    ensures XorBits(a, b, n) < Pow(2, n)
    ensures XorBits(XorBits(a, b, n), b, n) == a
  {
    if n > 0 {
      XorBitsTwice(a / 2, b / 2, n - 1);
      var x, y := XorBits(a, b, n), XorBits(a / 2, b / 2, n - 1);
      assert x / 2 == y && x % 2 == (if a % 2 == b % 2 then 0 else 1);
      assert XorBits(x, b, n) == a % 2 + 2 * XorBits(y, b / 2, n - 1);
    }
  }

  function Xor(a: Byte, b: Byte): (r: Byte)
  {
    assert Pow(2, 8) == 256;
    XorBitsTwice(a, b, 8);
    XorBits(a, b, 8)
  }

  lemma {:induction false} XorTwice(a: Byte, m: Byte)
    ensures Xor(Xor(a, m), m) == a
  {
    assert Pow(2, 8) == 256;
    XorBitsTwice(a, m, 8);
  }

  /** Bit `k` of a number. */
  function Bit(a: nat, k: nat): nat { a / Pow(2, k) % 2 }

  lemma {:induction false} HalfBit(a: nat, k: nat)
    requires 0 < k < 8
    ensures Bit(a, k) == Bit(a / 2, k - 1)
  {
    assert Pow(2, 0) == 1 && Pow(2, 1) == 2 && Pow(2, 2) == 4 && Pow(2, 3) == 8;
    assert Pow(2, 4) == 16 && Pow(2, 5) == 32 && Pow(2, 6) == 64 && Pow(2, 7) == 128;
    match k
    case 1 => assert a / 2 == a / 2 / 1;
    case 2 => assert a / 4 == a / 2 / 2;
    case 3 => assert a / 8 == a / 2 / 4;
    case 4 => assert a / 16 == a / 2 / 8;
    case 5 => assert a / 32 == a / 2 / 16;
    case 6 => assert a / 64 == a / 2 / 32;
    case 7 => assert a / 128 == a / 2 / 64;
  }

  lemma {:induction false} LastBit(a: nat)
    ensures Bit(a, 0) == a % 2
  {
    assert Pow(2, 0) == 1;
  }

  lemma {:induction false} XorHalves(a: nat, b: nat, n: nat)
    requires n > 0
    ensures XorBits(a, b, n) % 2 == if a % 2 == b % 2 then 0 else 1
    ensures XorBits(a, b, n) / 2 == XorBits(a / 2, b / 2, n - 1)
  {
  }

  lemma {:induction false} XorBitsAt(a: nat, b: nat, n: nat, k: nat)
    requires k < n <= 8
    ensures Bit(XorBits(a, b, n), k) == if Bit(a, k) == Bit(b, k) then 0 else 1
    decreases n
  {
    var x := XorBits(a, b, n);
    XorHalves(a, b, n);
    if k == 0 {
      LastBit(x);
      LastBit(a);
      LastBit(b);
    } else {
      HalfBit(x, k);
      HalfBit(a, k);
      HalfBit(b, k);
      XorBitsAt(a / 2, b / 2, n - 1, k - 1);
    }
  }

  /** A bit of `x` is set exactly when those of `a` and `b` differ. */
  ghost predicate ExclusiveOr(x: Byte, a: Byte, b: Byte)
  {
    forall k :: 0 <= k < 8 ==> (Bit(x, k) == 1 <==> Bit(a, k) != Bit(b, k))
  }

  lemma {:induction false} XorIsExclusiveOr(a: Byte, b: Byte)
    ensures ExclusiveOr(Xor(a, b), a, b)
  {
    forall k | 0 <= k < 8 ensures Bit(Xor(a, b), k) == 1 <==> Bit(a, k) != Bit(b, k) { XorBitsAt(a, b, 8, k); }
  }

  type MaskKey = m: seq<Byte> | |m| == 4 witness [0, 0, 0, 0]

  function Masked(payload: seq<Byte>, m: MaskKey): (r: seq<Byte>)
    ensures |r| == |payload|
  {
    seq(|payload|, i requires 0 <= i < |payload| => Xor(payload[i], m[i % 4]))
  }

  lemma {:induction false} MaskedTwice(payload: seq<Byte>, m: MaskKey)
    ensures Masked(Masked(payload, m), m) == payload
  {
    forall i | 0 <= i < |payload| ensures Masked(Masked(payload, m), m)[i] == payload[i] {
      XorTwice(payload[i], m[i % 4]);
    }
  }

  /** The low `k` bytes of `n`, most significant first. */
  function BigEndian(n: nat, k: nat): (s: seq<Byte>)
    ensures |s| == k
  {
    if k == 0 then [] else BigEndian(n / 256, k - 1) + [n % 256]
  }

  function FromBigEndian(s: seq<Byte>): nat
  {
    if s == [] then 0 else FromBigEndian(s[..|s| - 1]) * 256 + s[|s| - 1]
  }

  lemma {:induction false} BigEndianRoundTrip(n: nat, k: nat)
    requires n < Pow(256, k)
    ensures FromBigEndian(BigEndian(n, k)) == n
  {
    if k > 0 {
      Quotient(n, Pow(256, k - 1));
      BigEndianRoundTrip(n / 256, k - 1);
      OneMoreByte(BigEndian(n / 256, k - 1), n % 256);
    }
  }

  lemma {:induction false} OneMoreByte(s: seq<Byte>, b: Byte)
    ensures FromBigEndian(s + [b]) == FromBigEndian(s) * 256 + b
  {
    assert (s + [b])[..|s|] == s;
  }

  lemma {:induction false} Quotient(n: nat, p: nat)
    requires n < 256 * p
    ensures n / 256 < p && n / 256 * 256 + n % 256 == n
  {
  }

  // ── Wire format ──────────────────────────────────────────────────────────────────────────────

  /** The 7-bit, 16-bit and 64-bit length forms of section 5.2. */
  datatype LengthForm = Short | Medium | Long

  datatype Frame = Frame(fin: bool, rsv: nat, opcode: nat, mask: Option<MaskKey>, form: LengthForm, payload: seq<Byte>)
  {
    predicate Valid()
    {
      && rsv < 8 && opcode < 16
      && match form
         case Short => |payload| < 126
         case Medium => |payload| < 0x10000
         case Long => |payload| < INT_LIMIT
    }
  }

  /** A frame that can be put on the wire. */
  type WireFrame = f: Frame | f.Valid() witness Frame(true, 0, OP_TEXT, None, Short, [])

  function LengthBytes(form: LengthForm, n: nat, maskBit: nat): (s: seq<Byte>)
    requires maskBit == 0 || maskBit == 128
    requires form.Short? ==> n < 126
  {
    match form
    case Short => [maskBit + n]
    case Medium => [maskBit + 126] + BigEndian(n, 2)
    case Long => [maskBit + 127] + BigEndian(n, 8)
  }

  function MaskBytes(mask: Option<MaskKey>): seq<Byte> { if mask.Some? then mask.value else [] }

  function PayloadBytes(f: Frame): seq<Byte>
  {
    if f.mask.Some? then Masked(f.payload, f.mask.value) else f.payload
  }

  function FirstByte(fin: bool, rsv: nat, opcode: nat): (b: Byte)
    requires rsv < 8 && opcode < 16
    ensures b >= 128 <==> fin
    ensures b % 16 == opcode
  {
    (if fin then 128 else 0) + rsv * 16 + opcode
  }

  function EncodeFrame(f: WireFrame): seq<Byte>
  {
    [FirstByte(f.fin, f.rsv, f.opcode)]
    + (LengthBytes(f.form, |f.payload|, if f.mask.Some? then 128 else 0)
       + (MaskBytes(f.mask) + PayloadBytes(f)))
  }

  // ── Writer ───────────────────────────────────────────────────────────────────────────────────

  function ShortestForm(n: nat): LengthForm
  {
    if n < 126 then Short else if n < 65536 then Medium else Long
  }

  /** What a client sends: one masked FIN frame in the shortest form. */
  function ClientFrame(opcode: nat, payload: seq<Byte>, mask: MaskKey): WireFrame
    requires opcode < 16 && |payload| < INT_LIMIT
  {
    Frame(true, 0, opcode, Some(mask), ShortestForm(|payload|), payload)
  }

  lemma {:induction false} LimitFits(n: nat)
    requires n < INT_LIMIT
    ensures n < Pow(256, 8)
  {
  }

  /** `n >> (8 * i)`. */
  function ShiftBytes(n: nat, i: nat): nat
    decreases i
  {
    if i == 0 then n else ShiftBytes(n / 256, i - 1)
  }

  lemma {:induction false} ShiftOneMore(n: nat, i: nat)
    ensures ShiftBytes(n, i + 1) == ShiftBytes(n, i) / 256
    decreases i
  {
    if i > 0 {
      ShiftOneMore(n / 256, i - 1);
    }
  }

  lemma {:induction false} ShiftAll(n: nat, i: nat)
    requires n < Pow(256, i)
    ensures ShiftBytes(n, i) == 0
    decreases i
  {
    if i > 0 {
      ShiftAll(n / 256, i - 1);
    }
  }

  /** The 64-bit length, one shifted byte at a time from the top. */
  method LongLength(len: nat) returns (h: seq<Byte>)
    requires len < INT_LIMIT
    ensures h == BigEndian(len, 8)
  {
    h := [];
    LimitFits(len);
    ShiftAll(len, 8);
    var i := 8;
    while i > 0
      invariant 0 <= i <= 8
      invariant h == BigEndian(ShiftBytes(len, i), 8 - i)
    {
      i := i - 1;
      ShiftOneMore(len, i);
      h := h + [ShiftBytes(len, i) % 256];
    }
  }

  /** The length part of the header, in the shortest form. */
  method LengthHeader(len: nat) returns (h: seq<Byte>)
    requires len < INT_LIMIT
    ensures h == LengthBytes(ShortestForm(len), len, 128)
  {
    if len < 126 {
      h := [128 + len];
    } else if len < 65536 {
      h := [128 + 126] + [len / 256 % 256] + [len % 256];
      assert BigEndian(len / 256, 1) == [len / 256 % 256];
    } else {
      var long := LongLength(len);
      h := [128 + 127] + long;
    }
  }

  function HeaderLength(n: nat): nat { if n < 126 then 2 else if n < 65536 then 4 else 10 }

  /** The length field after the first byte, read digit by digit as section 5.2 lays it out. */
  ghost predicate LengthField(w: seq<Byte>, n: nat)
    requires |w| >= HeaderLength(n)
  {
    if n < 126 then w[1] == 128 + n
    else if n < 65536 then w[1] == 254 && w[2] as int * 256 + w[3] as int == n
    else
      && w[1] == 255
      && ((((((w[2] as int * 256 + w[3]) * 256 + w[4]) * 256 + w[5]) * 256 + w[6]) * 256 + w[7]) * 256 + w[8]) * 256
         + w[9] == n
  }

  /** Byte by byte what goes out: FIN and opcode with no reserved bit, the length, the four mask bytes,
      and the payload exclusive-ored with the mask in turn. */
  ghost predicate OnWire(w: seq<Byte>, opcode: nat, payload: seq<Byte>, mask: MaskKey)
  {
    var h := HeaderLength(|payload|);
    && |w| == h + 4 + |payload|
    && w[0] == 128 + opcode
    && LengthField(w, |payload|)
    && w[h..h + 4] == mask
    && CarriesMasked(w[h + 4..], payload, mask)
  }

  ghost predicate CarriesMasked(s: seq<Byte>, payload: seq<Byte>, mask: MaskKey)
  {
    |s| == |payload| && forall i :: 0 <= i < |payload| ==> ExclusiveOr(s[i], payload[i], mask[i % 4])
  }

  lemma {:induction false} MaskedCarries(payload: seq<Byte>, mask: MaskKey)
    ensures CarriesMasked(Masked(payload, mask), payload, mask)
  {
    forall i | 0 <= i < |payload| ensures ExclusiveOr(Masked(payload, mask)[i], payload[i], mask[i % 4]) {
      XorIsExclusiveOr(payload[i], mask[i % 4]);
    }
  }

  lemma {:induction false} NextDigit(s: seq<Byte>, k: nat)
    requires k < |s|
    ensures FromBigEndian(s[..k + 1]) == FromBigEndian(s[..k]) * 256 + s[k]
  {
    assert s[..k + 1][..k] == s[..k];
  }

  lemma {:induction false} TwoDigits(s: seq<Byte>)
    requires |s| >= 2
    ensures FromBigEndian(s[..2]) == s[0] as int * 256 + s[1] as int
  {
    assert s[..0] == [];
    NextDigit(s, 0);
    NextDigit(s, 1);
  }

  lemma {:induction false} EightDigits(s: seq<Byte>)
    requires |s| == 8
    ensures FromBigEndian(s)
      == ((((((s[0] as int * 256 + s[1]) * 256 + s[2]) * 256 + s[3]) * 256 + s[4]) * 256 + s[5]) * 256 + s[6]) * 256
         + s[7]
  {
    TwoDigits(s);
    NextDigit(s, 2);
    NextDigit(s, 3);
    NextDigit(s, 4);
    NextDigit(s, 5);
    NextDigit(s, 6);
    NextDigit(s, 7);
    assert s[..8] == s;
  }

  lemma {:induction false} LengthLaid(n: nat, rest: seq<Byte>, first: Byte)
    requires n < INT_LIMIT
    ensures var l := LengthBytes(ShortestForm(n), n, 128);
      |l| + 1 == HeaderLength(n) && LengthField([first] + (l + rest), n)
  {
    var l := LengthBytes(ShortestForm(n), n, 128);
    var w := [first] + (l + rest);
    if 126 <= n < 65536 {
      BigEndianRoundTrip(n, 2) by { assert Pow(256, 2) == 65536; }
      TwoDigits(BigEndian(n, 2));
      assert BigEndian(n, 2)[..2] == BigEndian(n, 2);
      assert w[2] == BigEndian(n, 2)[0] && w[3] == BigEndian(n, 2)[1];
    } else if n >= 65536 {
      LimitFits(n);
      BigEndianRoundTrip(n, 8);
      EightDigits(BigEndian(n, 8));
      assert forall i :: 0 <= i < 8 ==> w[2 + i] == BigEndian(n, 8)[i];
    }
  }

  lemma {:induction false} MaskLaid(front: seq<Byte>, mask: MaskKey, masked: seq<Byte>)
    ensures var w := front + (mask + masked); var h := |front|;
      |w| == h + 4 + |masked| && w[h..h + 4] == mask && w[h + 4..] == masked
  {
  }

  lemma {:induction false} WriterBytes(opcode: nat, payload: seq<Byte>, mask: MaskKey)
    requires opcode < 16 && |payload| < INT_LIMIT
    ensures OnWire(EncodeFrame(ClientFrame(opcode, payload, mask)), opcode, payload, mask)
  {
    var w, masked := EncodeFrame(ClientFrame(opcode, payload, mask)), Masked(payload, mask);
    var l := LengthBytes(ShortestForm(|payload|), |payload|, 128);
    LengthLaid(|payload|, mask + masked, w[0]);
    Assoc([w[0]], l, mask + masked);
    MaskLaid([w[0]] + l, mask, masked);
    MaskedCarries(payload, mask);
  }

  /** `writeFrame` up to the socket write: header by appends, then the masked payload. */
  method WriteFrame(opcode: nat, payload: seq<Byte>, mask: MaskKey) returns (wire: seq<Byte>)
    requires opcode < 16
    requires |payload| < INT_LIMIT
    ensures wire == EncodeFrame(ClientFrame(opcode, payload, mask))
    ensures OnWire(wire, opcode, payload, mask)
  {
    var header: seq<Byte> := [128 + opcode];
    var length := LengthHeader(|payload|);
    header := header + length + mask;
    var masked := MaskPayload(payload, mask);
    wire := header + masked;
    FrameParts(opcode, payload, mask);
    WriterBytes(opcode, payload, mask);
  }

  method MaskPayload(payload: seq<Byte>, mask: MaskKey) returns (masked: seq<Byte>)
    ensures masked == Masked(payload, mask)
  {
    masked := [];
    for i := 0 to |payload|
      invariant masked == Masked(payload, mask)[..i]
    {
      masked := masked + [Xor(payload[i], mask[i % 4])];
    }
  }

  lemma {:induction false} FrameParts(opcode: nat, payload: seq<Byte>, mask: MaskKey)
    requires opcode < 16 && |payload| < INT_LIMIT
    ensures EncodeFrame(ClientFrame(opcode, payload, mask)) ==
      [128 + opcode] + LengthBytes(ShortestForm(|payload|), |payload|, 128) + mask + Masked(payload, mask)
  {
    var l, masked := LengthBytes(ShortestForm(|payload|), |payload|, 128), Masked(payload, mask);
    Assoc([128 + opcode], l, mask + masked);
    Assoc([128 + opcode] + l, mask, masked);
  }

  // ── Reader ───────────────────────────────────────────────────────────────────────────────────

  /** What one pass over the stream yields: a frame and the bytes after it, the end of the stream
      inside a frame, or the trap of converting a 64-bit length that does not fit `Int`. */
  datatype Parsed = Got(fin: bool, opcode: nat, payload: seq<Byte>, rest: seq<Byte>) | Eof | Trap

  function ParseLength(b1: Byte, s: seq<Byte>): (r: Option<(nat, seq<Byte>)>)
    ensures r.Some? ==> |r.value.1| <= |s|
  {
    var l := b1 % 128;
    if l == 126 then
      if |s| < 2 then None else Some((FromBigEndian(s[..2]), s[2..]))
    else if l == 127 then
      if |s| < 8 then None else Some((FromBigEndian(s[..8]), s[8..]))
    else Some((l, s))
  }

  function ParseBody(b0: Byte, masked: bool, len: nat, s: seq<Byte>): (r: Parsed)
    ensures r.Got? ==> |r.rest| <= |s|
  {
    if masked && |s| < 4 then Eof
    else
      var data := if masked then s[4..] else s;
      if len >= INT_LIMIT then Trap
      else if |data| < len then Eof
      else Got(b0 >= 128, b0 % 16, if masked then Masked(data[..len], s[..4]) else data[..len], data[len..])
  }

  function ParseFrame(s: seq<Byte>): (r: Parsed)
    ensures r.Got? ==> |r.rest| < |s|
  {
    if |s| < 2 then Eof
    else
      match ParseLength(s[1], s[2..])
      case None => Eof
      case Some((len, t)) => ParseBody(s[0], s[1] >= 128, len, t)
  }

  /** The extended length, shifted in one byte at a time. */
  method ReadLength(b1: Byte, s: seq<Byte>) returns (r: Option<(nat, seq<Byte>)>)
    ensures r == ParseLength(b1, s)
  {
    var len: nat := b1 % 128;
    if len < 126 {
      return Some((len, s));
    }
    var k := if len == 126 then 2 else 8;
    if |s| < k {
      return None;
    }
    var e := s[..k];
    len := 0;
    for i := 0 to k
      invariant len == FromBigEndian(e[..i])
    {
      assert e[..i + 1][..i] == e[..i];
      len := len * 256 + e[i];
    }
    assert e[..k] == e;
    r := Some((len, s[k..]));
  }

  /** The in-place unmasking loop. */
  method Unmask(data: seq<Byte>, m: MaskKey) returns (payload: seq<Byte>)
    ensures payload == Masked(data, m)
  {
    payload := data;
    for i := 0 to |data|
      invariant |payload| == |data|
      invariant forall j :: 0 <= j < |data| ==> payload[j] == if j < i then Xor(data[j], m[j % 4]) else data[j]
    {
      payload := payload[i := Xor(payload[i], m[i % 4])];
    }
  }

  /** The frame-reading part of the loop body. */
  method ReadFrame(s: seq<Byte>) returns (p: Parsed)
    ensures p == ParseFrame(s)
  {
    if |s| < 2 { return Eof; }
    var b0, b1 := s[0], s[1];
    var l := ReadLength(b1, s[2..]);
    if l.None? { return Eof; }
    var (len, t) := l.value;
    var masked := b1 >= 128;
    if masked && |t| < 4 { return Eof; }
    var data := if masked then t[4..] else t;
    if len >= INT_LIMIT { return Trap; }
    if |data| < len { return Eof; }
    var payload := data[..len];
    if masked {
      payload := Unmask(payload, t[..4]);
    }
    p := Got(b0 >= 128, b0 % 16, payload, data[len..]);
  }

  lemma {:induction false} ExtendedRoundTrip(n: nat, k: nat, rest: seq<Byte>)
    requires n < Pow(256, k)
    ensures var s := BigEndian(n, k) + rest; FromBigEndian(s[..k]) == n && s[k..] == rest
  {
    assert (BigEndian(n, k) + rest)[..k] == BigEndian(n, k);
    BigEndianRoundTrip(n, k);
  }

  lemma {:induction false} LengthRoundTrip(form: LengthForm, n: nat, maskBit: nat, rest: seq<Byte>)
    requires maskBit == 0 || maskBit == 128
    requires match form case Short => n < 126 case Medium => n < 0x10000 case Long => n < INT_LIMIT
    ensures var l := LengthBytes(form, n, maskBit);
            ParseLength(l[0], l[1..] + rest) == Some((n, rest)) && (l[0] >= 128 <==> maskBit == 128)
  {
    match form
    case Short => assert LengthBytes(form, n, maskBit)[1..] + rest == rest;
    case Medium => MediumRoundTrip(n, maskBit, rest);
    case Long => LongRoundTrip(n, maskBit, rest);
  }

  lemma {:induction false} MediumRoundTrip(n: nat, maskBit: nat, rest: seq<Byte>)
    requires (maskBit == 0 || maskBit == 128) && n < 0x10000
    ensures var l := LengthBytes(Medium, n, maskBit); ParseLength(l[0], l[1..] + rest) == Some((n, rest))
  {
    assert LengthBytes(Medium, n, maskBit)[1..] == BigEndian(n, 2);
    ExtendedRoundTrip(n, 2, rest) by { assert Pow(256, 2) == 0x10000; }
  }

  lemma {:induction false} LongRoundTrip(n: nat, maskBit: nat, rest: seq<Byte>)
    requires (maskBit == 0 || maskBit == 128) && n < INT_LIMIT
    ensures var l := LengthBytes(Long, n, maskBit); ParseLength(l[0], l[1..] + rest) == Some((n, rest))
  {
    assert LengthBytes(Long, n, maskBit)[1..] == BigEndian(n, 8);
    ExtendedRoundTrip(n, 8, rest) by { LimitFits(n); }
  }

  lemma {:induction false} SplitAt<T>(a: seq<T>, b: seq<T>)
    ensures (a + b)[..|a|] == a && (a + b)[|a|..] == b
  {
  }

  lemma {:induction false} BodyRoundTrip(f: WireFrame, b0: Byte, rest: seq<Byte>)
    ensures ParseBody(b0, f.mask.Some?, |f.payload|, MaskBytes(f.mask) + PayloadBytes(f) + rest)
            == Got(b0 >= 128, b0 % 16, f.payload, rest)
  {
    SplitAt(PayloadBytes(f), rest);
    if f.mask.Some? {
      Assoc(f.mask.value, PayloadBytes(f), rest);
      SplitAt(f.mask.value, PayloadBytes(f) + rest);
      MaskedTwice(f.payload, f.mask.value);
    } else {
      assert [] + PayloadBytes(f) == PayloadBytes(f);
    }
  }

  lemma {:induction false} Assoc<T>(a: seq<T>, b: seq<T>, c: seq<T>)
    ensures a + b + c == a + (b + c)
  {
  }

  lemma {:induction false} FrontBytes<T>(b0: T, l: seq<T>, body: seq<T>)
    requires l != []
    ensures var s := [b0] + (l + body); s[0] == b0 && s[1] == l[0] && s[2..] == l[1..] + body
  {
  }

  lemma {:induction false} ParseFront(b0: Byte, l: seq<Byte>, body: seq<Byte>, n: nat)
    requires l != [] && ParseLength(l[0], l[1..] + body) == Some((n, body))
    ensures ParseFrame([b0] + (l + body)) == ParseBody(b0, l[0] >= 128, n, body)
  {
    FrontBytes(b0, l, body);
  }

  lemma {:induction false} WireShape(f: WireFrame, rest: seq<Byte>)
    ensures EncodeFrame(f) + rest
            == [FirstByte(f.fin, f.rsv, f.opcode)]
               + (LengthBytes(f.form, |f.payload|, if f.mask.Some? then 128 else 0)
                  + (MaskBytes(f.mask) + PayloadBytes(f) + rest))
  {
  }

  /** Every valid frame reads back as its FIN bit, opcode and payload, and leaves what follows it. */
  lemma {:induction false} FrameRoundTrip(f: WireFrame, rest: seq<Byte>)
    ensures ParseFrame(EncodeFrame(f) + rest) == Got(f.fin, f.opcode, f.payload, rest)
  {
    var b0 := FirstByte(f.fin, f.rsv, f.opcode);
    var bit := if f.mask.Some? then 128 else 0;
    var body := MaskBytes(f.mask) + PayloadBytes(f) + rest;
    WireShape(f, rest);
    LengthRoundTrip(f.form, |f.payload|, bit, body);
    ParseFront(b0, LengthBytes(f.form, |f.payload|, bit), body, |f.payload|);
    BodyRoundTrip(f, b0, rest);
  }

  /** The writer's frames read back, and no valid encoding of the same payload is shorter. */
  lemma {:induction false} WriterRoundTrip(opcode: nat, payload: seq<Byte>, mask: MaskKey, rest: seq<Byte>)
    requires opcode < 16 && |payload| < INT_LIMIT
    ensures ParseFrame(EncodeFrame(ClientFrame(opcode, payload, mask)) + rest) == Got(true, opcode, payload, rest)
    ensures forall f: WireFrame :: f.payload == payload && f.mask.Some? ==>
              |EncodeFrame(ClientFrame(opcode, payload, mask))| <= |EncodeFrame(f)|
  {
    FrameRoundTrip(ClientFrame(opcode, payload, mask), rest);
  }

  /** A 64-bit length that Swift's `Int` cannot hold traps as soon as the header is read. */
  lemma {:induction false} HugeLengthTraps(b0: Byte, mask: Option<MaskKey>, n: nat, rest: seq<Byte>)
    requires INT_LIMIT <= n < 0x1_0000_0000_0000_0000
    ensures ParseFrame([b0] + (LengthBytes(Long, n, if mask.Some? then 128 else 0) + (MaskBytes(mask) + rest))) == Trap
  {
    var bit := if mask.Some? then 128 else 0;
    var l := LengthBytes(Long, n, bit);
    assert Pow(256, 4) == 0x1_0000_0000;
    PowEight();
    ExtendedRoundTrip(n, 8, MaskBytes(mask) + rest);
    assert l[1..] == BigEndian(n, 8);
    ParseFront(b0, l, MaskBytes(mask) + rest, n);
  }

  lemma {:induction false} PowEight()
    ensures Pow(256, 8) == 0x1_0000_0000_0000_0000
  {
    assert Pow(256, 2) == 0x1_0000 && Pow(256, 4) == 0x1_0000_0000 && Pow(256, 6) == 0x1_0000_0000_0000;
  }

  /** Bytes arriving later do not change a frame already complete, nor a trap. */
  lemma {:induction false} ParseExtends(s: seq<Byte>, more: seq<Byte>)
    ensures var p, q := ParseFrame(s), ParseFrame(s + more);
            && (p.Got? ==> q == p.(rest := p.rest + more))
            && (p.Trap? ==> q.Trap?)
  {
    if |s| >= 2 {
      assert (s + more)[2..] == s[2..] + more;
      LengthExtends(s[1], s[2..], more);
      var l := ParseLength(s[1], s[2..]);
      if l.Some? {
        BodyExtends(s[0], s[1] >= 128, l.value.0, l.value.1, more);
      }
    }
  }

  lemma {:induction false} LengthExtends(b1: Byte, s: seq<Byte>, more: seq<Byte>)
    ensures var l := ParseLength(b1, s);
            l.Some? ==> ParseLength(b1, s + more) == Some((l.value.0, l.value.1 + more))
  {
    var l := b1 % 128;
    var k := if l == 126 then 2 else if l == 127 then 8 else 0;
    if k <= |s| {
      assert (s + more)[..k] == s[..k] && (s + more)[k..] == s[k..] + more;
    }
  }

  lemma {:induction false} BodyExtends(b0: Byte, masked: bool, len: nat, s: seq<Byte>, more: seq<Byte>)
    ensures var p, q := ParseBody(b0, masked, len, s), ParseBody(b0, masked, len, s + more);
            && (p.Got? ==> q == p.(rest := p.rest + more))
            && (p.Trap? ==> q.Trap?)
  {
    var k := if masked then 4 else 0;
    if k <= |s| {
      var data := s[k..];
      assert (s + more)[..k] == s[..k] && (s + more)[k..] == data + more;
      if len <= |data| {
        assert (data + more)[..len] == data[..len] && (data + more)[len..] == data[len..] + more;
      }
    }
  }

  // ── The read loop ────────────────────────────────────────────────────────────────────────────

  datatype Out = Message(data: seq<Byte>) | Pong(data: seq<Byte>)

  /** What the other threads let the loop see at its k-th frame: still registered at the top of the
      loop, still registered when a message is complete, socket still open for a pong. */
  datatype Env = Env(top: bool, emit: bool, open: bool)

  predicate IsData(opcode: nat) { opcode == OP_TEXT || opcode == OP_CONTINUATION }

  function When<T>(c: bool, x: T): seq<T> { if c then [x] else [] }

  /** The effect of one frame: what it emits, the message under assembly, and whether to stop. */
  datatype Turn = Turn(outs: seq<Out>, message: seq<Byte>, stop: bool)

  function OnFrame(fin: bool, opcode: nat, payload: seq<Byte>, message: seq<Byte>, e: Env): Turn
  {
    if IsData(opcode) then
      if fin then Turn(When(e.emit, Message(message + payload)), [], false)
      else Turn([], message + payload, false)
    else if opcode == OP_PING then Turn(When(e.open, Pong(payload)), message, false)
    else Turn([], message, opcode == OP_CLOSE)
  }

  /** A frame as the reader sees it. */
  datatype Item = Item(fin: bool, opcode: nat, payload: seq<Byte>)

  /** The complete frames at the front of a stream, up to its end or a trap. */
  function ParseAll(s: seq<Byte>): seq<Item>
    decreases |s|
  {
    var p := ParseFrame(s);
    if p.Got? then [Item(p.fin, p.opcode, p.payload)] + ParseAll(p.rest) else []
  }

  /** The loop over some frames; `stop` says that it left for good. */
  function Run(items: seq<Item>, message: seq<Byte>, k: nat, env: nat -> Env): Turn
  {
    if items == [] then Turn([], message, false)
    else if !env(k).top then Turn([], message, true)
    else
      var t := OnFrame(items[0].fin, items[0].opcode, items[0].payload, message, env(k));
      if t.stop then t
      else
        var r := Run(items[1..], t.message, k + 1, env);
        Turn(t.outs + r.outs, r.message, r.stop)
  }

  /** What the read loop delivers over a stream. */
  function Delivered(s: seq<Byte>, env: nat -> Env): seq<Out>
  {
    Run(ParseAll(s), [], 0, env).outs
  }

  lemma {:induction false} RunTurn(
    item: Item, items: seq<Item>, message: seq<Byte>, k: nat, env: nat -> Env, before: seq<Out>)
    requires env(k).top
    ensures var t := OnFrame(item.fin, item.opcode, item.payload, message, env(k));
            before + Run([item] + items, message, k, env).outs
            == before + t.outs + if t.stop then [] else Run(items, t.message, k + 1, env).outs
  {
  }

  /** `readLoop` over the bytes that arrive before the stream ends. */
  method ReadLoop(stream: seq<Byte>, env: nat -> Env) returns (outs: seq<Out>)
    ensures outs == Delivered(stream, env)
  {
    outs := [];
    var s, message: seq<Byte>, k := stream, [], 0;
    ghost var items := ParseAll(stream);
    while env(k).top
      invariant items == ParseAll(s)
      invariant outs + Run(items, message, k, env).outs == Delivered(stream, env)
      decreases |s|
    {
      var p := ReadFrame(s);
      if !p.Got? { break; }
      RunTurn(items[0], items[1..], message, k, env, outs);
      assert [items[0]] + items[1..] == items;
      items := items[1..];
      var t := OnFrame(p.fin, p.opcode, p.payload, message, env(k));
      outs, message := outs + t.outs, t.message;
      if t.stop { return; }
      s, k := p.rest, k + 1;
    }
  }
}
