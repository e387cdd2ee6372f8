/**
 * The TextEncoder / TextDecoder polyfills: UTF-16 code units to UTF-8 bytes and back
 * (sections 3 and 4 of RFC 3629).
 *
 * `Encode` and `Decode` are the value-level readings of the two loops; `EncodeText` and
 * `DecodeText` are the loops themselves, proved to compute them. The theorems say exactly which
 * strings survive the round trip and that the two directions are inverse bijections between
 * well-formed UTF-16 and the byte grammar of RFC 3629.
 */
module Utf8 {
  import opened Common

  /** A UTF-16 code unit, as `charCodeAt` returns it. */
  type Unit = u: int | 0 <= u < 0x10000

  /** What the surrogate arithmetic can produce; a broken pair may exceed 0x10FFFF. */
  type CodeValue = v: int | 0 <= v < 0x200000

  /** `charCodeAt` past the end is NaN, and NaN survives the surrogate arithmetic. */
  datatype Code = NaN | Num(v: CodeValue)

  predicate IsHigh(u: Unit) { 0xd800 <= u <= 0xdbff }
  predicate IsLow(u: Unit) { 0xdc00 <= u <= 0xdfff }

  // ── Encoder ──────────────────────────────────────────────────────────────────────────────────

  /** The code read at the front of a string: a high surrogate swallows the next unit, whatever it is. */
  function Head(s: seq<Unit>): Code
    requires s != []
  {
    if !IsHigh(s[0]) then Num(s[0])
    else if |s| == 1 then NaN
    else Num(0x10000 + (s[0] as int - 0xd800) * 1024 + (s[1] as int - 0xdc00))
  }

  function Rest(s: seq<Unit>): seq<Unit>
    requires s != []
  {
    if IsHigh(s[0]) && |s| > 1 then s[2..] else s[1..]
  }

  /** Every comparison with NaN is false, so NaN takes the four-byte branch; its shifts yield 0. */
  function CodeBytes(c: Code): seq<Byte>
  {
    match c
    case NaN => [0xf0, 0x80, 0x80, 0x80]
    case Num(v) =>
      if v < 0x80 then [v]
      else if v < 0x800 then [0xc0 + v / 64, 0x80 + v % 64]
      else if v < 0x10000 then [0xe0 + v / 4096, 0x80 + v / 64 % 64, 0x80 + v % 64]
      else [0xf0 + v / 262144, 0x80 + v / 4096 % 64, 0x80 + v / 64 % 64, 0x80 + v % 64]
  }

  function Encode(s: seq<Unit>): seq<Byte>
  {
    if s == [] then [] else CodeBytes(Head(s)) + Encode(Rest(s))
  }

  /** The first pass's contribution of one code. */
  function SizeOf(c: Code): nat
  {
    if c.NaN? then 4 else if c.v < 0x80 then 1 else if c.v < 0x800 then 2 else if c.v < 0x10000 then 3 else 4
  }

  function Suffix(str: seq<Unit>, i: nat): seq<Unit>
  {
    if i <= |str| then str[i..] else []
  }

  /** The code and the loop index after it, reading from position `i`. */
  method ReadCode(str: seq<Unit>, i: nat) returns (c: Code, next: nat)
    requires i < |str|
    ensures c == Head(str[i..])
    ensures i < next <= |str| + 1
    ensures Rest(str[i..]) == Suffix(str, next)
  {
    c, next := Num(str[i]), i + 1;
    if 0xd800 <= c.v <= 0xdbff {
      if next < |str| {
        c := Num(0x10000 + (c.v - 0xd800) * 1024 + (str[next] as int - 0xdc00));
      } else {
        c := NaN;
      }
      next := next + 1;
    }
  }

  /** One iteration of the second pass: the bytes of `c` go in at `j`. */
  method Put(out: array<Byte>, j: nat, c: Code) returns (next: nat)
    requires j + |CodeBytes(c)| <= out.Length
    modifies out
    ensures next == j + |CodeBytes(c)|
    ensures out[..next] == old(out[..j]) + CodeBytes(c)
  {
    var v := if c.NaN? then 0 else c.v;
    if c.Num? && v < 0x80 {
      out[j] := v;
      next := j + 1;
    } else if c.Num? && v < 0x800 {
      out[j], out[j + 1] := 0xc0 + v / 64, 0x80 + v % 64;
      next := j + 2;
    } else if c.Num? && v < 0x10000 {
      out[j], out[j + 1], out[j + 2] := 0xe0 + v / 4096, 0x80 + v / 64 % 64, 0x80 + v % 64;
      next := j + 3;
    } else {
      out[j], out[j + 1] := 0xf0 + v / 262144, 0x80 + v / 4096 % 64;
      out[j + 2], out[j + 3] := 0x80 + v / 64 % 64, 0x80 + v % 64;
      next := j + 4;
    }
    assert out[..j] == old(out[..j]);
  }

  lemma {:induction false} EncodeStep(str: seq<Unit>, i: nat, next: nat)
    requires i < |str|
    requires Rest(str[i..]) == Suffix(str, next)
    ensures Encode(Suffix(str, i)) == CodeBytes(Head(str[i..])) + Encode(Suffix(str, next))
  {
  }

  /** Moving one code's bytes from what is left to what is written. */
  lemma {:induction false} Advance(str: seq<Unit>, i: nat, next: nat, before: seq<Byte>, bytes: seq<Byte>)
    requires i < |str| && Rest(str[i..]) == Suffix(str, next)
    requires bytes == CodeBytes(Head(str[i..]))
    requires before + Encode(Suffix(str, i)) == Encode(str)
    ensures before + bytes + Encode(Suffix(str, next)) == Encode(str)
    ensures |before| + |bytes| <= |Encode(str)|
  {
  }

  /** The first pass: the exact byte length, so the buffer is allocated once. */
  method ByteLength(str: seq<Unit>) returns (len: nat)
    ensures len == |Encode(str)|
  {
    var i: nat := 0;
    len := 0;
    while i < |str|
      invariant len + |Encode(Suffix(str, i))| == |Encode(str)|
      decreases |str| + 1 - i
    {
      var c, next := ReadCode(str, i);
      EncodeStep(str, i, next);
      len, i := len + SizeOf(c), next;
    }
  }

  /** What is still to be written once the second pass has reached position `i`. */
  ghost predicate Filled(out: array<Byte>, j: nat, str: seq<Unit>, i: nat)
    reads out
  {
    j <= out.Length && out[..j] + Encode(Suffix(str, i)) == Encode(str)
  }

  /** One iteration of the second pass. */
  method EncodeOne(out: array<Byte>, j: nat, str: seq<Unit>, i: nat) returns (j': nat, i': nat)
    requires i < |str| && out.Length == |Encode(str)| && Filled(out, j, str, i)
    modifies out
    ensures i < i' <= |str| + 1 && Filled(out, j', str, i')
  {
    var c;
    c, i' := ReadCode(str, i);
    Advance(str, i, i', out[..j], CodeBytes(c));
    j' := Put(out, j, c);
  }

  /** Both passes of `TextEncoder.encode`: the buffer is sized by the first, and the second fills
      it exactly, from index 0 upwards, with the encoding. */
  method EncodeText(str: seq<Unit>) returns (out: array<Byte>)
    ensures fresh(out)
    ensures out[..] == Encode(str)
  {
    var len := ByteLength(str);
    out := new Byte[len](_ => 0);
    var i: nat, j: nat := 0, 0;
    while i < |str|
      invariant Filled(out, j, str, i)
      decreases |str| + 1 - i
    {
      j, i := EncodeOne(out, j, str, i);
    }
  }

  // ── Decoder ──────────────────────────────────────────────────────────────────────────────────

  /** `bytes[i] & 0x3f`; a read past the end is `undefined`, which masks to 0. */
  function Low6(b: seq<Byte>, i: nat): (r: nat)
    ensures r < 64
  {
    if i < |b| then b[i] % 64 else 0
  }

  function Drop(b: seq<Byte>, n: nat): seq<Byte> { if n <= |b| then b[n..] else [] }

  /** How many bytes the decoder consumes for a lead byte. */
  function Width(b0: Byte): nat
  {
    if b0 < 0x80 then 1 else if 0xc0 <= b0 < 0xe0 then 2 else if 0xe0 <= b0 < 0xf0 then 3 else 4
  }

  /** The units of one decoding step; the last branch also takes stray continuation bytes. */
  function DecodeHead(b: seq<Byte>): seq<Unit>
    requires b != []
  {
    var b0: int := b[0];
    if b0 < 0x80 then [b0]
    else if 0xc0 <= b0 < 0xe0 then [b0 % 32 * 64 + Low6(b, 1)]
    else if 0xe0 <= b0 < 0xf0 then [b0 % 16 * 4096 + Low6(b, 1) * 64 + Low6(b, 2)]
    else
      var u := b0 % 8 * 262144 + Low6(b, 1) * 4096 + Low6(b, 2) * 64 + Low6(b, 3) - 0x10000;
      [0xd800 + u / 1024, 0xdc00 + u % 1024]
  }

  function Decode(b: seq<Byte>): seq<Unit>
    decreases |b|
  {
    if b == [] then [] else DecodeHead(b) + Decode(Drop(b, Width(b[0])))
  }

  /** `bytes[i]`, with `undefined` masking to 0. */
  function ByteAt(b: seq<Byte>, i: nat): Byte { if i < |b| then b[i] else 0 }

  /** One iteration of the decoder, reading from position `i`. */
  method ReadUnits(bytes: seq<Byte>, i: nat) returns (units: seq<Unit>, next: nat)
    requires i < |bytes|
    ensures units == DecodeHead(bytes[i..])
    ensures next == i + Width(bytes[i])
  {
    var b0: int := bytes[i];
    var x1: int, x2: int, x3: int := ByteAt(bytes, i + 1) % 64, ByteAt(bytes, i + 2) % 64, ByteAt(bytes, i + 3) % 64;
    if b0 < 0x80 {
      units, next := [b0], i + 1;
    } else if 0xc0 <= b0 < 0xe0 {
      units, next := [b0 % 32 * 64 + x1], i + 2;
    } else if 0xe0 <= b0 < 0xf0 {
      units, next := [b0 % 16 * 4096 + x1 * 64 + x2], i + 3;
    } else {
      var u := b0 % 8 * 262144 + x1 * 4096 + x2 * 64 + x3 - 0x10000;
      units, next := [0xd800 + u / 1024, 0xdc00 + u % 1024], i + 4;
    }
  }

  /** The loop of `TextDecoder.decode`. */
  method DecodeText(bytes: seq<Byte>) returns (out: seq<Unit>)
    ensures out == Decode(bytes)
  {
    out := [];
    var i: nat := 0;
    while i < |bytes|
      invariant out + Decode(Drop(bytes, i)) == Decode(bytes)
    {
      var units, next := ReadUnits(bytes, i);
      UnitsRead(bytes, i, next, out, units);
      out, i := out + units, next;
    }
    assert out + [] == out;
  }

  /** Moving one character's units from what is left to what is written. */
  lemma {:induction false} UnitsRead(bytes: seq<Byte>, i: nat, next: nat, before: seq<Unit>, units: seq<Unit>)
    requires i < |bytes| && units == DecodeHead(bytes[i..]) && next == i + Width(bytes[i])
    requires before + Decode(Drop(bytes, i)) == Decode(bytes)
    ensures before + units + Decode(Drop(bytes, next)) == Decode(bytes)
  {
    assert Drop(bytes[i..], Width(bytes[i])) == Drop(bytes, next);
    AssocUnits(before, units, Decode(Drop(bytes, next)));
  }

  lemma {:induction false} AssocUnits(a: seq<Unit>, b: seq<Unit>, c: seq<Unit>)
    ensures a + b + c == a + (b + c)
  {
  }

  // ── What a string turns into on the way there and back ───────────────────────────────────────

  /** The units that the bytes of one code decode to. */
  function CodeUnits(c: Code): seq<Unit>
  {
    if c.NaN? then [0xd7c0, 0xdc00]
    else if c.v < 0x10000 then [c.v]
    else [0xd800 + (c.v - 0x10000) / 1024, 0xdc00 + (c.v - 0x10000) % 1024]
  }

  lemma {:induction false} SixBitDigits(v: nat)
    ensures v == v / 64 * 64 + v % 64
    ensures v == v / 4096 * 4096 + v / 64 % 64 * 64 + v % 64
    ensures v == v / 262144 * 262144 + v / 4096 % 64 * 4096 + v / 64 % 64 * 64 + v % 64
  {
    var a := v / 64;
    var b := a / 64;
    assert v / 4096 == b;
    assert v / 262144 == b / 64;
  }

  lemma {:induction false} DecodeThree(v: nat, rest: seq<Byte>)
    requires 0x800 <= v < 0x10000
    ensures DecodeHead([0xe0 + v / 4096, 0x80 + v / 64 % 64, 0x80 + v % 64] + rest) == [v]
  {
    SixBitDigits(v);
    var b := [0xe0 + v / 4096, 0x80 + v / 64 % 64, 0x80 + v % 64] + rest;
    assert b[0] % 16 == v / 4096 && Low6(b, 1) == v / 64 % 64 && Low6(b, 2) == v % 64;
  }

  lemma {:induction false} DecodeDigits(d3: nat, d2: nat, d1: nat, d0: nat, rest: seq<Byte>)
    requires d3 < 8 && d2 < 64 && d1 < 64 && d0 < 64
    requires d3 > 0 || d2 >= 16
    ensures var u := d3 * 262144 + d2 * 4096 + d1 * 64 + d0 - 0x10000;
      DecodeHead([0xf0 + d3, 0x80 + d2, 0x80 + d1, 0x80 + d0] + rest) == [0xd800 + u / 1024, 0xdc00 + u % 1024]
  {
    var b := [0xf0 + d3, 0x80 + d2, 0x80 + d1, 0x80 + d0] + rest;
    assert b[0] % 8 == d3 && Low6(b, 1) == d2 && Low6(b, 2) == d1 && Low6(b, 3) == d0;
  }

  lemma {:induction false} DecodeFour(v: CodeValue, rest: seq<Byte>)
    requires 0x10000 <= v
    ensures DecodeHead(CodeBytes(Num(v)) + rest) == CodeUnits(Num(v))
  {
    SixBitDigits(v);
    DecodeDigits(v / 262144, v / 4096 % 64, v / 64 % 64, v % 64, rest);
  }

  lemma {:induction false} DecodeShort(v: nat, rest: seq<Byte>)
    requires v < 0x800
    ensures DecodeHead(CodeBytes(Num(v)) + rest) == [v]
  {
  }

  lemma {:induction false} CodeWidth(c: Code, rest: seq<Byte>)
    ensures Drop(CodeBytes(c) + rest, Width(CodeBytes(c)[0])) == rest
  {
  }

  lemma {:induction false} HeadDecodes(c: Code, rest: seq<Byte>)
    ensures DecodeHead(CodeBytes(c) + rest) == CodeUnits(c)
  {
    if c.NaN? {
      var b := CodeBytes(c) + rest;
      assert b[0] == 0xf0 && b[1] == b[2] == b[3] == 0x80;
    } else if c.v >= 0x10000 {
      DecodeFour(c.v, rest);
    } else if c.v >= 0x800 {
      DecodeThree(c.v, rest);
    } else {
      DecodeShort(c.v, rest);
    }
  }

  ghost function Transcode(s: seq<Unit>): seq<Unit>
  {
    if s == [] then [] else CodeUnits(Head(s)) + Transcode(Rest(s))
  }

  lemma {:induction false} DecodeEncode(s: seq<Unit>)
    ensures Decode(Encode(s)) == Transcode(s)
  {
    if s != [] {
      HeadDecodes(Head(s), Encode(Rest(s)));
      CodeWidth(Head(s), Encode(Rest(s)));
      DecodeEncode(Rest(s));
    }
  }

  /** Each high surrogate is directly followed by a low one; lone low surrogates are allowed. */
  ghost predicate WellPaired(s: seq<Unit>)
  {
    forall i :: 0 <= i < |s| && IsHigh(s[i]) ==> i + 1 < |s| && IsLow(s[i + 1])
  }

  lemma {:induction false} PairTranscodes(hi: Unit, lo: Unit)
    requires IsHigh(hi) && IsLow(lo)
    ensures CodeUnits(Head([hi, lo])) == [hi, lo]
  {
  }

  lemma {:induction false} PairedTranscodes(s: seq<Unit>)
    requires WellPaired(s)
    ensures Transcode(s) == s
  {
    if s != [] {
      PairedTranscodes(Rest(s));
      if IsHigh(s[0]) {
        PairTranscodes(s[0], s[1]);
        assert Head(s) == Head([s[0], s[1]]) && s == [s[0], s[1]] + s[2..];
      }
    }
  }

  /** The way back never lengthens a string, except by a trailing high surrogate, which is then
      visible as a low surrogate at the end. */
  lemma {:induction false} TranscodeShape(s: seq<Unit>)
    ensures |Transcode(s)| <= |s|
         || (s != [] && IsHigh(s[|s| - 1]) && |Transcode(s)| == |s| + 1 && Transcode(s)[|s|] == 0xdc00)
  {
    if s != [] {
      TranscodeShape(Rest(s));
    }
  }

  lemma {:induction false} UnpairedChanges(s: seq<Unit>)
    requires !WellPaired(s)
    ensures Transcode(s) != s
  {
    var r := Rest(s);
    var back := Transcode(r);
    assert Transcode(s) == CodeUnits(Head(s)) + back;
    if !IsHigh(s[0]) {
      assert s == [s[0]] + r;
      UnpairedChanges(r);
      assert Transcode(s)[1..] == back;
    } else if |s| > 1 && IsLow(s[1]) {
      assert s == [s[0], s[1]] + r;
      UnpairedChanges(r);
      assert Transcode(s)[2..] == back;
    } else if |s| > 1 && Head(s).v < 0x10000 {
      TranscodeShape(r);
    } else if |s| > 1 {
      assert Transcode(s)[1] != s[1];
    }
  }

  /** A string survives encoding and decoding if and only if it is well paired. */
  lemma {:induction false} RoundTrip(s: seq<Unit>)
    ensures Decode(Encode(s)) == s <==> WellPaired(s)
  {
    DecodeEncode(s);
    if WellPaired(s) {
      PairedTranscodes(s);
    } else {
      UnpairedChanges(s);
    }
  }

  // ── The grammar of section 4 of RFC 3629 ─────────────────────────────────────────────────────

  predicate Tail(b: seq<Byte>, i: nat) { i < |b| && 0x80 <= b[i] <= 0xbf }

  predicate InRange(b: seq<Byte>, lo: Byte, hi: Byte) { 1 < |b| && lo <= b[1] <= hi }

  /** Length of the UTF8-char at the front of `b`, or 0 when there is none. */
  function CharLen(b: seq<Byte>): (n: nat)
    ensures n <= |b|
  {
    if b == [] then 0
    else if b[0] <= 0x7f then 1
    else if 0xc2 <= b[0] <= 0xdf && Tail(b, 1) then 2
    else if b[0] == 0xe0 && InRange(b, 0xa0, 0xbf) && Tail(b, 2) then 3
    else if 0xe1 <= b[0] <= 0xec && Tail(b, 1) && Tail(b, 2) then 3
    else if b[0] == 0xed && InRange(b, 0x80, 0x9f) && Tail(b, 2) then 3
    else if 0xee <= b[0] <= 0xef && Tail(b, 1) && Tail(b, 2) then 3
    else if b[0] == 0xf0 && InRange(b, 0x90, 0xbf) && Tail(b, 2) && Tail(b, 3) then 4
    else if 0xf1 <= b[0] <= 0xf3 && Tail(b, 1) && Tail(b, 2) && Tail(b, 3) then 4
    else if b[0] == 0xf4 && InRange(b, 0x80, 0x8f) && Tail(b, 2) && Tail(b, 3) then 4
    else 0
  }

  /** UTF8-octets: a sequence of UTF8-chars. */
  predicate WellFormed(b: seq<Byte>)
    decreases |b|
  {
    b == [] || (CharLen(b) > 0 && WellFormed(b[CharLen(b)..]))
  }

  /** UTF-16 without lone surrogates. */
  predicate WellFormed16(s: seq<Unit>)
  {
    s == [] ||
    (if IsHigh(s[0]) then |s| > 1 && IsLow(s[1]) && WellFormed16(s[2..])
     else !IsLow(s[0]) && WellFormed16(s[1..]))
  }

  lemma {:induction false} WellFormed16IsPaired(s: seq<Unit>)
    requires WellFormed16(s)
    ensures WellPaired(s)
  {
    if s != [] {
      var r := Rest(s);
      WellFormed16IsPaired(r);
      forall i | 0 <= i < |s| && IsHigh(s[i]) ensures i + 1 < |s| && IsLow(s[i + 1]) {
        if i >= |s| - |r| {
          assert r[i - (|s| - |r|)] == s[i];
        }
      }
    }
  }

  /** The value of four six-bit groups determines the groups. */
  lemma {:induction false} DigitsOfValue(d3: nat, d2: nat, d1: nat, d0: nat)
    requires d2 < 64 && d1 < 64 && d0 < 64
    ensures var v := d3 * 262144 + d2 * 4096 + d1 * 64 + d0;
            v % 64 == d0 && v / 64 % 64 == d1 && v / 4096 % 64 == d2 && v / 262144 == d3
  {
    var v := d3 * 262144 + d2 * 4096 + d1 * 64 + d0;
    assert v / 64 == d3 * 4096 + d2 * 64 + d1;
    assert v / 4096 == d3 * 64 + d2;
  }

  lemma {:induction false} SurrogatePair(v: nat)
    requires 0x10000 <= v < 0x110000
    ensures var s: seq<Unit> := [0xd800 + (v - 0x10000) / 1024, 0xdc00 + (v - 0x10000) % 1024];
            IsHigh(s[0]) && IsLow(s[1]) && Head(s) == Num(v)
  {
  }

  ghost function FourByteValue(b: seq<Byte>): int
    requires |b| >= 4
  {
    (b[0] as int - 0xf0) * 262144 + (b[1] as int - 0x80) * 4096 + (b[2] as int - 0x80) * 64 + (b[3] as int - 0x80)
  }

  lemma {:induction false} FourByteShape(b: seq<Byte>)
    requires CharLen(b) == 4
    ensures 0xf0 <= b[0] <= 0xf4 && Tail(b, 1) && Tail(b, 2) && Tail(b, 3)
    ensures 0x10000 <= FourByteValue(b) < 0x110000
  {
  }

  lemma {:induction false} FourByteUnits(b: seq<Byte>)
    requires |b| >= 4 && 0xf0 <= b[0] <= 0xf4 && Tail(b, 1) && Tail(b, 2) && Tail(b, 3)
    ensures var u := FourByteValue(b) - 0x10000; DecodeHead(b) == [0xd800 + u / 1024, 0xdc00 + u % 1024]
  {
    assert b[0] % 8 == b[0] - 0xf0;
    assert Low6(b, 1) == b[1] - 0x80 && Low6(b, 2) == b[2] - 0x80 && Low6(b, 3) == b[3] - 0x80;
  }

  lemma {:induction false} FourByteCode(b: seq<Byte>, v: CodeValue)
    requires |b| >= 4 && 0xf0 <= b[0] && Tail(b, 1) && Tail(b, 2) && Tail(b, 3)
    requires 0x10000 <= v == FourByteValue(b)
    ensures CodeBytes(Num(v)) == b[..4]
  {
    DigitsOfValue(b[0] - 0xf0, b[1] - 0x80, b[2] - 0x80, b[3] - 0x80);
  }

  lemma {:induction false} FourByteChar(b: seq<Byte>)
    requires CharLen(b) == 4
    ensures var s := DecodeHead(b); IsHigh(s[0]) && IsLow(s[1]) && CodeBytes(Head(s)) == b[..4]
  {
    FourByteShape(b);
    FourByteUnits(b);
    SurrogatePair(FourByteValue(b));
    FourByteCode(b, FourByteValue(b));
  }

  lemma {:induction false} ThreeByteChar(b: seq<Byte>)
    requires CharLen(b) == 3
    ensures |DecodeHead(b)| == 1 && !IsHigh(DecodeHead(b)[0]) && !IsLow(DecodeHead(b)[0])
    ensures CodeBytes(Num(DecodeHead(b)[0])) == b[..3]
  {
    var d2, d1, d0 := b[0] as int - 0xe0, b[1] as int - 0x80, b[2] as int - 0x80;
    var v := d2 * 4096 + d1 * 64 + d0;
    assert b[0] % 16 == d2 && Low6(b, 1) == d1 && Low6(b, 2) == d0;
    DigitsOfValue(0, d2, d1, d0);
    assert DecodeHead(b) == [v] && v / 4096 == d2;
  }

  lemma {:induction false} ShortChar(b: seq<Byte>)
    requires 0 < CharLen(b) < 4
    ensures |DecodeHead(b)| == 1 && !IsHigh(DecodeHead(b)[0]) && !IsLow(DecodeHead(b)[0])
    ensures CodeBytes(Num(DecodeHead(b)[0])) == b[..CharLen(b)]
  {
    if CharLen(b) == 3 {
      ThreeByteChar(b);
    } else if CharLen(b) == 2 {
      DigitsOfValue(0, 0, b[0] - 0xc0, b[1] - 0x80);
    }
  }

  /** One grammatical character: decoded to the units that encode back to its bytes. */
  lemma {:induction false} CharRoundTrip(b: seq<Byte>, units: seq<Unit>)
    requires CharLen(b) > 0
    ensures Width(b[0]) == CharLen(b)
    ensures var s := DecodeHead(b) + units;
            CodeBytes(Head(s)) == b[..CharLen(b)] && Rest(s) == units
    ensures WellFormed16(units) ==> WellFormed16(DecodeHead(b) + units)
  {
    var s := DecodeHead(b) + units;
    assert s[|DecodeHead(b)|..] == units;
    if CharLen(b) == 4 {
      FourByteChar(b);
      assert Head(s) == Head(DecodeHead(b));
    } else {
      ShortChar(b);
      assert Head(s) == Num(DecodeHead(b)[0]);
    }
  }

  /** Decoding and encoding back both take a leading character off the front. */
  lemma {:induction false} OneCharacter(b: seq<Byte>) returns (n: nat)
    requires b != [] && WellFormed(b)
    ensures 0 < n <= |b| && WellFormed(b[n..])
    ensures Encode(Decode(b)) == b[..n] + Encode(Decode(b[n..]))
    ensures WellFormed16(Decode(b[n..])) ==> WellFormed16(Decode(b))
  {
    n := CharLen(b);
    CharRoundTrip(b, Decode(b[n..]));
  }

  lemma {:induction false} Halves(b: seq<Byte>, n: nat)
    requires n <= |b|
    ensures b[..n] + b[n..] == b
  {
  }

  /** Bytes of the RFC 3629 grammar decode to well-formed UTF-16 and encode back to themselves. */
  lemma {:induction false} GrammarRoundTrip(b: seq<Byte>)
    requires WellFormed(b)
    ensures Encode(Decode(b)) == b
    ensures WellFormed16(Decode(b))
    decreases |b|
  {
    if b != [] {
      var n := OneCharacter(b);
      GrammarRoundTrip(b[n..]);
      Halves(b, n);
    }
  }

  lemma {:induction false} WideCodeIsChar(c: CodeValue, rest: seq<Byte>)
    requires 0x10000 <= c < 0x110000
    ensures CharLen(CodeBytes(Num(c)) + rest) == 4
  {
    var b := CodeBytes(Num(c)) + rest;
    var hi, next: int := b[0], b[1];
    assert hi == 0xf0 + c / 262144 && next == 0x80 + c / 4096 % 64;
    SixBitDigits(c);
    assert Tail(b, 2) && Tail(b, 3);
  }

  lemma {:induction false} CodeIsChar(c: CodeValue, rest: seq<Byte>)
    requires c < 0xd800 || 0xe000 <= c < 0x110000
    ensures CharLen(CodeBytes(Num(c)) + rest) == |CodeBytes(Num(c))|
  {
    var b := CodeBytes(Num(c)) + rest;
    if c >= 0x10000 {
      WideCodeIsChar(c, rest);
    } else if c >= 0x800 {
      assert b[0] == 0xe0 + c / 4096 && b[1] == 0x80 + c / 64 % 64 && Tail(b, 2);
      SixBitDigits(c);
    } else if c >= 0x80 {
      assert b[0] == 0xc0 + c / 64 && Tail(b, 1);
    }
  }

  /** Well-formed UTF-16 encodes into the RFC 3629 grammar and decodes back: with
      `GrammarRoundTrip`, the two functions are inverse bijections between these sets. */
  lemma {:induction false} TextRoundTrip(s: seq<Unit>)
    requires WellFormed16(s)
    ensures WellFormed(Encode(s))
    ensures Decode(Encode(s)) == s
  {
    if s != [] {
      TextRoundTrip(Rest(s));
      CodeIsChar(Head(s).v, Encode(Rest(s)));
      var n := |CodeBytes(Head(s))|;
      assert Encode(s)[n..] == Encode(Rest(s));
    }
    WellFormed16IsPaired(s);
    RoundTrip(s);
  }

  // ── Bytes outside the grammar ────────────────────────────────────────────────────────────────

  /** A two-byte form is read as its eleven bits even where one byte would do. */
  lemma {:induction false} OverlongRead(h: nat, l: nat, rest: seq<Byte>)
    requires h < 32 && l < 64
    ensures Decode([0xc0 + h, 0x80 + l] + rest) == [h * 64 + l] + Decode(rest)
  {
    var b := [0xc0 + h, 0x80 + l] + rest;
    assert b[0] % 32 == h && Low6(b, 1) == l;
    assert Drop(b, 2) == rest;
  }

  /** A stray continuation byte, or one above every lead byte, is read like the lead byte of four that
      has its low three bits. */
  lemma {:induction false} StrayReadsAsFour(b0: Byte, rest: seq<Byte>)
    requires 0x80 <= b0 < 0xc0 || 0xf8 <= b0
    ensures Decode([b0] + rest) == Decode([0xf0 + b0 % 8] + rest)
  {
    var b, c := [b0] + rest, [0xf0 + b0 % 8] + rest;
    assert forall i: nat :: i > 0 ==> Low6(b, i) == Low6(c, i);
    assert c[0] % 8 == b0 % 8;
    assert forall i :: 0 < i < |b| ==> b[i] == c[i];
    assert Drop(b, 4) == Drop(c, 4);
  }

  /** A character cut off by the end of the input is read as if zero bits followed. */
  lemma {:induction false} CutReadsAsZeros(b: seq<Byte>, zeros: seq<Byte>)
    requires b != [] && 0xc0 <= b[0]
    requires |b| + |zeros| == (if b[0] < 0xe0 then 2 else if b[0] < 0xf0 then 3 else 4)
    requires forall i :: 0 <= i < |zeros| ==> zeros[i] == 0x80
    ensures Decode(b) == Decode(b + zeros)
  {
    var c := b + zeros;
    forall i: nat ensures Low6(b, i) == Low6(c, i) { assert i < |b| ==> c[i] == b[i]; }
    assert Drop(b, |c|) == [] && Drop(c, |c|) == [];
  }
}
