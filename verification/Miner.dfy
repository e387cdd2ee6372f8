/**
 * The NIP-13 miner: count up, write the count into the nonce field in place, hash, stop at the
 * first hash with enough leading zero bits. The hash is a parameter.
 */
module Miner {
  import opened Common

  // ── Leading zero bits ────────────────────────────────────────────────────────────────────────

  /** `leadingZeroBitCount` of a byte. */
  function ByteZeros(b: Byte): nat
  {
    if b >= 128 then 0 else if b >= 64 then 1 else if b >= 32 then 2 else if b >= 16 then 3
    else if b >= 8 then 4 else if b >= 4 then 5 else if b >= 2 then 6 else if b >= 1 then 7 else 8
  }

  function LeadingZeros(h: seq<Byte>): nat
  {
    if h == [] then 0 else if h[0] == 0 then 8 + LeadingZeros(h[1..]) else ByteZeros(h[0])
  }

  method LeadingZeroBits(hash: seq<Byte>) returns (count: nat)
    ensures count == LeadingZeros(hash) <= 8 * |hash|
  {
    count := 0;
    var i := 0;
    while i < |hash|
      invariant i <= |hash| && count == 8 * i && count + LeadingZeros(hash[i..]) == LeadingZeros(hash)
    {
      assert hash[i..][1..] == hash[i + 1..];
      if hash[i] != 0 {
        count := count + ByteZeros(hash[i]);
        return;
      }
      count := count + 8;
      i := i + 1;
    }
  }

  /** The hash read as one big-endian number. */
  function BigEndian(h: seq<Byte>): nat
  {
    if h == [] then 0 else h[0] * Pow(2, 8 * (|h| - 1)) + BigEndian(h[1..])
  }

  lemma {:induction false} PowAdd(a: nat, b: nat)
    ensures Pow(2, a + b) == Pow(2, a) * Pow(2, b)
  {
    if a > 0 {
      PowAdd(a - 1, b);
      Regroup(Pow(2, a - 1), Pow(2, b));
    }
  }

  lemma {:induction false} Regroup(x: nat, y: nat)
    ensures 2 * x * y == 2 * (x * y)
  {
  }

  lemma {:induction false} PowGrows(a: nat, b: nat)
    requires a <= b
    ensures Pow(2, a) <= Pow(2, b)
  {
    if a < b { PowGrows(a, b - 1); }
  }

  lemma {:induction false} ByteRange(b: Byte)
    ensures b > 0 ==> ByteZeros(b) < 8 && Pow(2, 7 - ByteZeros(b)) <= b < Pow(2, 8 - ByteZeros(b))
    ensures Pow(2, 8) == 256
  {
  }

  lemma {:induction false} Times(a: nat, b: nat, p: nat)
    requires a <= b
    ensures a * p <= b * p
  {
  }

  lemma {:induction false} BigEndianBound(h: seq<Byte>)
    ensures BigEndian(h) < Pow(2, 8 * |h|)
  {
    if h != [] {
      var m := 8 * (|h| - 1);
      BigEndianBound(h[1..]);
      ByteRange(0);
      PowAdd(8, m);
      LeadByte(h[0], BigEndian(h[1..]), Pow(2, m));
    }
  }

  lemma {:induction false} LeadByte(b: Byte, low: nat, p: nat)
    requires low < p
    ensures b * p + low < 256 * p
  {
    var next: nat := b as int + 1;
    Times(next, 256, p);
    assert next * p == b * p + p;
  }

  /** First byte not zero: where its highest bit stands decides. */
  lemma {:induction false} FirstByteDecides(b: Byte, low: nat, m: nat, d: nat)
    requires b > 0 && low < Pow(2, m) && d <= m + 8
    ensures ByteZeros(b) >= d <==> b * Pow(2, m) + low < Pow(2, m + 8 - d)
  {
    var z := ByteZeros(b);
    ByteRange(b);
    if d <= z {
      Times(b + 1, Pow(2, 8 - z), Pow(2, m));
      PowAdd(8 - z, m);
      PowGrows(8 - z + m, m + 8 - d);
      assert (b + 1) * Pow(2, m) == b * Pow(2, m) + Pow(2, m);
    } else {
      Times(Pow(2, 7 - z), b, Pow(2, m));
      PowAdd(7 - z, m);
      PowGrows(m + 8 - d, 7 - z + m);
    }
  }

  /** The difficulty test of NIP-13: at least `d` leading zero bits is the same as a number below
      2 to the power of the remaining bits. */
  lemma {:induction false} DifficultyIsMagnitude(h: seq<Byte>, d: nat)
    requires d <= 8 * |h|
    ensures LeadingZeros(h) >= d <==> BigEndian(h) < Pow(2, 8 * |h| - d)
  {
    if h != [] {
      var m := 8 * (|h| - 1);
      BigEndianBound(h[1..]);
      if h[0] != 0 {
        FirstByteDecides(h[0], BigEndian(h[1..]), m, d);
      } else if d <= 8 {
        PowGrows(m, 8 * |h| - d);
      } else {
        DifficultyIsMagnitude(h[1..], d - 8);
      }
    }
  }

  // ── The nonce field ──────────────────────────────────────────────────────────────────────────

  /** The last `width` decimal digits of `n`, in ASCII. */
  function Field(n: nat, width: nat): (f: seq<Byte>)
    ensures |f| == width
  {
    if width == 0 then [] else Field(n / 10, width - 1) + [48 + n % 10]
  }

  /** The number an ASCII digit string spells. */
  function Spelled(f: seq<Byte>): int
  {
    if f == [] then 0 else 10 * Spelled(f[..|f| - 1]) + f[|f| - 1] - 48
  }

  function Decimal(n: nat): seq<Byte>
  {
    if n < 10 then [48 + n] else Decimal(n / 10) + [48 + n % 10]
  }

  function Zeros(k: nat): seq<Byte> { if k == 0 then [] else [48] + Zeros(k - 1) }

  /** JavaScript's `padStart(width, '0')`. */
  function PadStart(s: seq<Byte>, width: nat): seq<Byte>
  {
    if |s| >= width then s else Zeros(width - |s|) + s
  }

  function Written(bytes: seq<Byte>, off: nat, width: nat, n: nat): seq<Byte>
    requires off + width <= |bytes|
  {
    bytes[..off] + Field(n, width) + bytes[off + width..]
  }

  /** The field holds the count modulo 10 to the width. */
  lemma {:induction false} FieldHolds(n: nat, width: nat) returns (q: nat)
    ensures n == q * Pow(10, width) + Spelled(Field(n, width))
    ensures 0 <= Spelled(Field(n, width)) < Pow(10, width)
  {
    if width == 0 {
      q := n;
    } else {
      q := FieldHolds(n / 10, width - 1);
      OneMoreDigit(Field(n / 10, width - 1), n % 10);
      Tenfold(q, Pow(10, width - 1));
    }
  }

  lemma {:induction false} OneMoreDigit(f: seq<Byte>, d: nat)
    requires d < 10
    ensures Spelled(f + [48 + d]) == 10 * Spelled(f) + d
  {
    assert (f + [48 + d])[..|f|] == f;
  }

  lemma {:induction false} Tenfold(q: nat, p: nat)
    ensures q * (10 * p) == 10 * (q * p)
  {
  }

  lemma {:induction false} ZerosAppend(k: nat)
    ensures Zeros(k + 1) == Zeros(k) + [48] && |Zeros(k)| == k
  {
    if k > 0 { ZerosAppend(k - 1); }
  }

  lemma {:induction false} FieldOfZero(width: nat)
    ensures Field(0, width) == Zeros(width)
  {
    if width > 0 {
      FieldOfZero(width - 1);
      ZerosAppend(width - 1);
    }
  }

  /** A number has at most `width` digits exactly when it is below 10 to the width. */
  lemma {:induction false} DecimalLength(n: nat, width: nat)
    requires width > 0
    ensures |Decimal(n)| <= width <==> n < Pow(10, width)
  {
    if n >= 10 {
      if width == 1 {
        assert |Decimal(n / 10)| > 0;
        assert Pow(10, 1) == 10;
      } else {
        DecimalLength(n / 10, width - 1);
        assert Pow(10, width) == 10 * Pow(10, width - 1);
      }
    } else {
      PowTen(width);
    }
  }

  lemma {:induction false} PowTen(width: nat)
    requires width > 0
    ensures Pow(10, width) >= 10
  {
  }

  lemma {:induction false} PadIsField(n: nat, width: nat)
    requires width > 0 && |Decimal(n)| <= width
    ensures PadStart(Decimal(n), width) == Field(n, width)
  {
    if n < 10 {
      FieldOfZero(width - 1);
      if width > 1 { ZerosAppend(width - 1); } else { assert [] + [48 + n] == [48 + n]; }
    } else {
      PadIsField(n / 10, width - 1);
      var d := Decimal(n / 10);
      if |d| < width - 1 {
        var zeros, last := Zeros(width - 1 - |d|), [48 + n % 10];
        assert zeros + (d + last) == (zeros + d) + last;
      }
    }
  }

  /** Padding the returned nonce rebuilds the hashed field if and only if the count fits it. */
  lemma {:induction false} PadRebuildsIff(n: nat, width: nat)
    requires width > 0
    ensures PadStart(Decimal(n), width) == Field(n, width) <==> n < Pow(10, width)
  {
    DecimalLength(n, width);
    if |Decimal(n)| <= width { PadIsField(n, width); }
  }

  // ── The miner ────────────────────────────────────────────────────────────────────────────────

  type Hash = seq<Byte> -> seq<Byte>

  predicate Qualifies(hash: Hash, bytes: seq<Byte>, difficulty: int)
  {
    LeadingZeros(hash(bytes)) >= difficulty
  }

  /** The inner loop: the count goes into the field from its last digit to its first. */
  method WriteField(a: array<Byte>, off: nat, width: nat, count: nat)
    requires off + width <= a.Length
    modifies a
    ensures a[..] == Written(old(a[..]), off, width, count)
  {
    var n, i := count, off + width - 1;
    ghost var was, done: seq<Byte> := a[..], [];
    assert Field(count, width) + [] == Field(count, width);
    assert was == was[..i + 1] + [] + was[off + width..];
    while i >= off
      invariant off - 1 <= i < off + width && |done| == off + width - 1 - i
      invariant a[..] == was[..i + 1] + done + was[off + width..]
      invariant Field(n, i - off + 1) + done == Field(count, width)
    {
      FieldStep(n, i - off + 1, done);
      OneMoreWritten(was, i, 48 + n % 10, done, was[off + width..]);
      ghost var before := a[..];
      a[i] := 48 + n % 10;
      assert a[..] == before[i := 48 + n % 10];
      done := [48 + n % 10] + done;
      n := n / 10;
      i := i - 1;
    }
    assert [] + done == done;
  }

  lemma {:induction false} OneMoreWritten(s: seq<Byte>, i: nat, b: Byte, done: seq<Byte>, rest: seq<Byte>)
    requires i < |s|
    ensures (s[..i + 1] + done + rest)[i := b] == s[..i] + ([b] + done) + rest
  {
  }

  lemma {:induction false} FieldStep(n: nat, k: nat, rest: seq<Byte>)
    requires k > 0
    ensures Field(n, k) + rest == Field(n / 10, k - 1) + ([48 + n % 10] + rest)
  {
  }

  /** `minePow`. The source loops for ever when no count qualifies; `known` is one that does. */
  method MinePow(a: array<Byte>, off: int, width: int, difficulty: int, hash: Hash, ghost known: nat)
    returns (nonce: Option<nat>)
    requires off >= 0 && width > 0 && off + width <= a.Length ==>
      1 <= known < 0x1_0000_0000_0000_0000 && Qualifies(hash, Written(a[..], off, width, known), difficulty)
    modifies a
    ensures nonce.None? <==> !(off >= 0 && width > 0 && off + width <= a.Length)
    ensures nonce.None? ==> a[..] == old(a[..])
    ensures nonce.Some? ==>
      var n := nonce.value;
      && 1 <= n <= known
      && a[..] == Written(old(a[..]), off, width, n)
      && LeadingZeros(hash(a[..])) >= difficulty
      && forall m: nat :: 1 <= m < n ==> LeadingZeros(hash(Written(old(a[..]), off, width, m))) < difficulty
  {
    if !(off >= 0 && width > 0 && off + width <= a.Length) { return None; }
    var count: nat := 0;
    ghost var was := a[..];
    while true
      invariant count < known
      invariant |was| == a.Length && a[..off] == was[..off] && a[off + width..] == was[off + width..]
      invariant forall m: nat :: 1 <= m <= count ==> !Qualifies(hash, Written(was, off, width, m), difficulty)
      decreases known - count
    {
      count := (count + 1) % 0x1_0000_0000_0000_0000;
      ghost var before := a[..];
      WriteField(a, off, width, count);
      SameOutside(before, was, off, width, count);
      var zeros := LeadingZeroBits(hash(a[..]));
      if zeros >= difficulty { return Some(count); }
      WrittenOutside(was, off, width, count);
    }
  }

  lemma {:induction false} SameOutside(s: seq<Byte>, t: seq<Byte>, off: nat, width: nat, n: nat)
    requires |s| == |t| && off + width <= |s| && s[..off] == t[..off] && s[off + width..] == t[off + width..]
    ensures Written(s, off, width, n) == Written(t, off, width, n)
  {
  }

  /** Bytes outside the nonce field never change. */
  lemma {:induction false} WrittenOutside(s: seq<Byte>, off: nat, width: nat, n: nat)
    requires off + width <= |s|
    ensures var w := Written(s, off, width, n);
      |w| == |s| && w[..off] == s[..off] && w[off + width..] == s[off + width..]
  {
  }
}
