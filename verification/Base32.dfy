/**
 * Base32 (section 6 of RFC 4648), read as what it is: one bit string cut into groups of five or of
 * eight. The reference definitions work on bits; the Swift decoder is a loop over a 32-bit word.
 */
module Base32 {
  import opened Common

  type Digit = d: nat | d < 32
  type Bits = seq<bool>

  // ── Bit strings ──────────────────────────────────────────────────────────────────────────────

  /** The low `k` bits of `x`, most significant first. */
  function BitsOf(x: nat, k: nat): (b: Bits)
    ensures |b| == k
  {
    if k == 0 then [] else BitsOf(x / 2, k - 1) + [x % 2 == 1]
  }

  function Number(b: Bits): nat
  {
    if b == [] then 0 else 2 * Number(b[..|b| - 1]) + if b[|b| - 1] then 1 else 0
  }

  function Flatten(xs: seq<nat>, k: nat): Bits
  {
    if xs == [] then [] else BitsOf(xs[0], k) + Flatten(xs[1..], k)
  }

  /** The whole groups of `k` bits from the left, and the shorter rest. */
  function Groups(b: Bits, k: nat): seq<nat>
    decreases |b|
  {
    if k == 0 || |b| < k then [] else [Number(b[..k])] + Groups(b[k..], k)
  }

  function Rest(b: Bits, k: nat): Bits
    decreases |b|
  {
    if k == 0 || |b| < k then b else Rest(b[k..], k)
  }

  function Zeros(n: nat): (b: Bits)
    ensures |b| == n
  {
    if n == 0 then [] else [false] + Zeros(n - 1)
  }

  lemma {:induction false} Small(b: Bits)
    ensures Number(b) < Pow(2, |b|)
  {
    if b != [] { Small(b[..|b| - 1]); }
  }

  lemma {:induction false} Powers()
    ensures Pow(2, 5) == 32 && Pow(2, 8) == 256
  {
  }

  lemma {:induction false} NumberOfBits(x: nat, k: nat)
    requires x < Pow(2, k)
    ensures Number(BitsOf(x, k)) == x
  {
    if k > 0 {
      NumberOfBits(x / 2, k - 1);
      assert BitsOf(x, k)[..k - 1] == BitsOf(x / 2, k - 1);
    }
  }

  lemma {:induction false} BitsOfNumber(b: Bits)
    ensures BitsOf(Number(b), |b|) == b
  {
    if b != [] {
      var n := |b| - 1;
      BitsOfNumber(b[..n]);
      assert b == b[..n] + [b[n]];
    }
  }

  lemma {:induction false} Assoc(a: Bits, b: Bits, c: Bits)
    ensures (a + b) + c == a + (b + c)
  {
  }

  lemma {:induction false} Halves(b: Bits, m: nat)
    requires m <= |b|
    ensures b[..m] + b[m..] == b
  {
  }

  lemma {:induction false} FlattenCons(g: Bits, xs: seq<nat>, k: nat)
    requires |g| == k
    ensures Flatten([Number(g)] + xs, k) == g + Flatten(xs, k)
  {
    BitsOfNumber(g);
    assert ([Number(g)] + xs)[1..] == xs;
  }

  /** Cutting into groups loses nothing. */
  lemma {:induction false} FlattenGroups(b: Bits, k: nat)
    requires k > 0
    ensures Flatten(Groups(b, k), k) + Rest(b, k) == b
    ensures |Rest(b, k)| < k
    decreases |b|
  {
    if |b| < k {
      assert [] + b == b;
    } else {
      var more := b[k..];
      FlattenGroups(more, k);
      FlattenCons(b[..k], Groups(more, k), k);
      Assoc(b[..k], Flatten(Groups(more, k), k), Rest(more, k));
      Halves(b, k);
    }
  }

  ghost predicate Fits(xs: seq<nat>, k: nat)
  {
    forall i :: 0 <= i < |xs| ==> xs[i] < Pow(2, k)
  }

  lemma {:induction false} GroupsFit(b: Bits, k: nat)
    ensures Fits(Groups(b, k), k)
    decreases |b|
  {
    if k > 0 && |b| >= k {
      GroupsFit(b[k..], k);
      Small(b[..k]);
    }
  }

  /** The cut is unique: whole groups followed by fewer than `k` bits are read back as they were. */
  lemma {:induction false} GroupsOfFlatten(xs: seq<nat>, t: Bits, k: nat)
    requires Fits(xs, k) && |t| < k
    ensures Groups(Flatten(xs, k) + t, k) == xs
    ensures Rest(Flatten(xs, k) + t, k) == t
  {
    if xs == [] {
      assert [] + t == t;
    } else {
      var g, f := BitsOf(xs[0], k), Flatten(xs[1..], k);
      GroupsOfFlatten(xs[1..], t, k);
      Assoc(g, f, t);
      var b := g + (f + t);
      assert b[..k] == g && b[k..] == f + t;
      NumberOfBits(xs[0], k);
      assert [xs[0]] + xs[1..] == xs;
    }
  }

  lemma {:induction false} FlattenAppend(xs: seq<nat>, x: nat, k: nat)
    ensures Flatten(xs + [x], k) == Flatten(xs, k) + BitsOf(x, k)
  {
    if xs == [] {
      assert Flatten([x][1..], k) == [];
      assert [] + [x] == [x];
      assert BitsOf(x, k) + [] == BitsOf(x, k) == [] + BitsOf(x, k);
    } else {
      FlattenAppend(xs[1..], x, k);
      assert (xs + [x])[1..] == xs[1..] + [x];
      Assoc(BitsOf(xs[0], k), Flatten(xs[1..], k), BitsOf(x, k));
    }
  }

  lemma {:induction false} FlattenLength(xs: seq<nat>)
    ensures |Flatten(xs, 5)| == 5 * |xs|
    ensures |Flatten(xs, 8)| == 8 * |xs|
  {
    if xs != [] { FlattenLength(xs[1..]); }
  }

  lemma {:induction false} RestLength(b: Bits)
    ensures |Rest(b, 5)| == |b| % 5
    decreases |b|
  {
    if |b| >= 5 { RestLength(b[5..]); }
  }

  // ── The alphabet ─────────────────────────────────────────────────────────────────────────────

  function Symbol(d: Digit): char { if d < 26 then 'A' + d as char else '2' + (d - 26) as char }

  function DigitOf(c: char): (d: Option<Digit>)
    ensures d.Some? ==> Symbol(d.value) == c
    ensures d.None? ==> forall v: Digit :: Symbol(v) != c
  {
    if 'A' <= c <= 'Z' then Some((c - 'A') as nat) else if '2' <= c <= '7' then Some((c - '2') as nat + 26) else None
  }

  function Spell(ds: seq<nat>): (s: string)
    ensures |s| == |ds|
  {
    if ds == [] then [] else [if ds[0] < 32 then Symbol(ds[0]) else '?'] + Spell(ds[1..])
  }

  /** The digits before the first '=', or none at all if another character comes first. */
  function Digits(s: string): Option<seq<nat>>
  {
    if s == [] || s[0] == '=' then Some([])
    else
      match DigitOf(s[0])
      case None => None
      case Some(d) => (match Digits(s[1..]) case None => None case Some(rest) => Some([d] + rest))
  }

  lemma {:induction false} SymbolRead(d: Digit)
    ensures DigitOf(Symbol(d)) == Some(d) && Symbol(d) != '='
  {
  }

  const ALPHABET := "ABCDEFGHIJKLMNOPQRSTUVWXYZ234567"

  /** Digits are the places of the characters in the alphabet of section 6 of RFC 4648. */
  lemma {:induction false} DigitIsPlace(c: char, d: Digit)
    ensures DigitOf(c) == Some(d) <==> ALPHABET[d] == c
  {
    SymbolAt(d);
    SymbolRead(d);
  }

  lemma {:induction false} SymbolAt(d: Digit)
    ensures Symbol(d) == ALPHABET[d]
  {
    if d < 8 {
      assert d == 0 || d == 1 || d == 2 || d == 3 || d == 4 || d == 5 || d == 6 || d == 7;
    } else if d < 16 {
      assert d == 8 || d == 9 || d == 10 || d == 11 || d == 12 || d == 13 || d == 14 || d == 15;
    } else if d < 24 {
      assert d == 16 || d == 17 || d == 18 || d == 19 || d == 20 || d == 21 || d == 22 || d == 23;
    } else {
      assert d == 24 || d == 25 || d == 26 || d == 27 || d == 28 || d == 29 || d == 30 || d == 31;
    }
  }

  lemma {:induction false} DigitsOfSpell(ds: seq<nat>)
    requires Fits(ds, 5)
    ensures Digits(Spell(ds)) == Some(ds)
  {
    if ds != [] {
      assert Fits(ds[1..], 5);
      DigitsOfSpell(ds[1..]);
      assert Spell(ds)[1..] == Spell(ds[1..]);
      Powers();
      SymbolRead(ds[0]);
      assert [ds[0]] + ds[1..] == ds;
    }
  }

  predicate UpperBase32(s: string) { forall i :: 0 <= i < |s| ==> DigitOf(s[i]).Some? }

  lemma {:induction false} SpellOfDigits(s: string)
    requires UpperBase32(s)
    ensures Digits(s).Some? && Fits(Digits(s).value, 5) && |Digits(s).value| == |s|
    ensures Spell(Digits(s).value) == s
  {
    Powers();
    if s != [] {
      assert UpperBase32(s[1..]) by { assert forall i :: 0 <= i < |s| - 1 ==> s[1..][i] == s[i + 1]; }
      SpellOfDigits(s[1..]);
      var d, rest := DigitOf(s[0]).value, Digits(s[1..]).value;
      assert ([d] + rest)[1..] == rest;
      assert [s[0]] + s[1..] == s;
    }
  }

  lemma {:induction false} DigitsFit(s: string)
    requires Digits(s).Some?
    ensures Fits(Digits(s).value, 5)
  {
    Powers();
    if s != [] && s[0] != '=' { DigitsFit(s[1..]); }
  }

  lemma {:induction false} SpellIsUpper(ds: seq<nat>)
    requires Fits(ds, 5)
    ensures UpperBase32(Spell(ds))
  {
    Powers();
    if ds != [] {
      SpellIsUpper(ds[1..]);
      var s := Spell(ds[1..]);
      assert forall i :: 0 < i < |[Symbol(ds[0])] + s| ==> ([Symbol(ds[0])] + s)[i] == s[i - 1];
    }
  }

  // ── Reference encoder and decoders ───────────────────────────────────────────────────────────

  /** The bits of the bytes, filled up with zero bits to a multiple of five. */
  function Filled(bytes: seq<Byte>): Bits
  {
    var b := Flatten(bytes, 8);
    b + Zeros((5 - |b| % 5) % 5)
  }

  /** The unpadded encoding. */
  function Encode(bytes: seq<Byte>): string { Spell(Groups(Filled(bytes), 5)) }

  function BytesOf(b: Bits): (bytes: seq<Byte>)
  {
    Octets(b);
    Groups(b, 8)
  }

  lemma {:induction false} Octets(b: Bits)
    ensures forall i :: 0 <= i < |Groups(b, 8)| ==> Groups(b, 8)[i] < 256
  {
    GroupsFit(b, 8);
    Powers();
  }

  /** The whole bytes among the bits of the digits; a shorter rest is dropped. */
  function Decode(s: string): Option<seq<Byte>>
  {
    match Digits(s)
    case None => None
    case Some(ds) => Some(BytesOf(Flatten(ds, 5)))
  }

  // ── Theorems ─────────────────────────────────────────────────────────────────────────────────

  lemma {:induction false} BytesFit(bytes: seq<Byte>)
    ensures Fits(bytes, 8)
  {
  }

  lemma {:induction false} GroupsWhole(b: Bits)
    requires |b| % 5 == 0
    ensures Flatten(Groups(b, 5), 5) == b
    ensures 5 * |Groups(b, 5)| == |b|
  {
    FlattenGroups(b, 5);
    RestLength(b);
    assert Rest(b, 5) == [];
    assert Flatten(Groups(b, 5), 5) + [] == Flatten(Groups(b, 5), 5);
    FlattenLength(Groups(b, 5));
  }

  lemma {:induction false} FilledLength(bytes: seq<Byte>) returns (pad: nat)
    ensures pad < 5 && Filled(bytes) == Flatten(bytes, 8) + Zeros(pad)
    ensures |Filled(bytes)| == 8 * |bytes| + pad && |Filled(bytes)| % 5 == 0
  {
    FlattenLength(bytes);
    pad := (5 - |Flatten(bytes, 8)| % 5) % 5;
  }

  /** The digits of an encoding carry the bits of the bytes and fewer than five zero bits more. */
  lemma {:induction false} EncodedBits(bytes: seq<Byte>) returns (ds: seq<nat>, pad: nat)
    ensures Encode(bytes) == Spell(ds) && Fits(ds, 5) && Digits(Encode(bytes)) == Some(ds)
    ensures pad < 5 && Flatten(ds, 5) == Flatten(bytes, 8) + Zeros(pad)
    ensures 5 * |ds| == 8 * |bytes| + pad
  {
    var b := Filled(bytes);
    ds := Groups(b, 5);
    pad := FilledLength(bytes);
    GroupsWhole(b);
    GroupsFit(b, 5);
    DigitsOfSpell(ds);
  }

  /** Every byte string is read back from its unpadded encoding. */
  lemma {:induction false} RoundTrip(bytes: seq<Byte>)
    ensures Decode(Encode(bytes)) == Some(bytes)
  {
    var ds, pad := EncodedBits(bytes);
    BytesFit(bytes);
    GroupsOfFlatten(bytes, Zeros(pad), 8);
  }

  /** A string without the pad character in it. */
  predicate Unpadded(s: string) { forall i :: 0 <= i < |s| ==> s[i] != '=' }

  lemma {:induction false} DigitsUpTo(s: string, rest: string)
    requires Unpadded(s) && (rest == [] || rest[0] == '=')
    ensures Digits(s + rest).Some? <==> UpperBase32(s)
    ensures Digits(s + rest) == Digits(s)
  {
    if s == [] {
      assert s + rest == rest;
    } else {
      var more := s[1..];
      assert forall i :: 0 <= i < |more| ==> more[i] == s[i + 1];
      UpperCons(s);
      DigitsUpTo(more, rest);
      assert (s + rest)[1..] == more + rest;
    }
  }

  lemma {:induction false} UpperCons(s: string)
    requires s != []
    ensures UpperBase32(s) <==> DigitOf(s[0]).Some? && UpperBase32(s[1..])
  {
    assert s == [s[0]] + s[1..];
    assert forall i :: 0 < i < |s| ==> s[i] == s[1..][i - 1];
  }

  /** What follows the first '=' is ignored, whatever it is; what precedes it is decoded if and only if
      it is all in the alphabet. */
  lemma {:induction false} RefusedIffForeign(s: string, rest: string)
    requires Unpadded(s) && (rest == [] || rest[0] == '=')
    ensures Decode(s + rest).Some? <==> forall i :: 0 <= i < |s| ==> s[i] in ALPHABET
    ensures Decode(s + rest) == Decode(s)
  {
    DigitsUpTo(s, rest);
    AllInAlphabet(s);
  }

  lemma {:induction false} InAlphabet(c: char)
    ensures DigitOf(c).Some? <==> c in ALPHABET
  {
    if DigitOf(c).Some? {
      DigitIsPlace(c, DigitOf(c).value);
    } else if c in ALPHABET {
      var d: Digit :| ALPHABET[d] == c;
      DigitIsPlace(c, d);
    }
  }

  // ── The strict decoder ───────────────────────────────────────────────────────────────────────

  /** The 32 bytes whose encoding is the key. */
  ghost predicate SecretOf(key: string, secret: seq<Byte>) { |secret| == 32 && Encode(secret) == key }

  /** The bits beyond the last whole byte are zero. */
  predicate CleanTail(key: string)
  {
    match Digits(key) case None => false case Some(ds) => Rest(Flatten(ds, 5), 8) == Zeros(4)
  }

  lemma {:induction false} SecretFilled(ds: seq<nat>, bytes: seq<Byte>)
    requires |ds| == 52 && Flatten(ds, 5) == Flatten(bytes, 8) + Zeros(4)
    ensures |bytes| == 32 && Filled(bytes) == Flatten(ds, 5)
  {
    FlattenLength(ds);
    FlattenLength(bytes);
    var pad := FilledLength(bytes);
  }

  lemma {:induction false} SecretExists(key: string)
    requires |key| == 52 && UpperBase32(key) && CleanTail(key)
    ensures exists secret: seq<Byte> :: SecretOf(key, secret)
  {
    SpellOfDigits(key);
    var ds := Digits(key).value;
    var bytes := BytesOf(Flatten(ds, 5));
    FlattenGroups(Flatten(ds, 5), 8);
    SecretFilled(ds, bytes);
    assert Flatten(ds, 5) + [] == Flatten(ds, 5);
    GroupsOfFlatten(ds, [], 5);
    assert SecretOf(key, bytes);
  }

  datatype Result = Ok(secret: seq<Byte>) | Err

  /** `decode_secret`: 52 uppercase symbols with a clean tail, read as the secret they encode. */
  ghost function DecodeSecret(key: string): Result
  {
    if |key| != 52 || !UpperBase32(key) || !CleanTail(key) then Err
    else
      SecretExists(key);
      var secret: seq<Byte> :| SecretOf(key, secret);
      Ok(secret)
  }

  /** Where the Rust decoder accepts, the Swift one gives the same secret. */
  lemma {:induction false} DecodersAgree(key: string)
    requires DecodeSecret(key).Ok?
    ensures Decode(key) == Some(DecodeSecret(key).secret)
  {
    RoundTrip(DecodeSecret(key).secret);
  }

  lemma {:induction false} EncodingIsClean(bytes: seq<Byte>)
    requires |bytes| == 32
    ensures var key := Encode(bytes); |key| == 52 && UpperBase32(key) && CleanTail(key)
  {
    var ds, pad := EncodedBits(bytes);
    BytesFit(bytes);
    SpellIsUpper(ds);
    assert pad == 4 && |ds| == 52;
    GroupsOfFlatten(bytes, Zeros(pad), 8);
  }

  /** Each 32-byte secret is accepted under its encoding … */
  lemma {:induction false} SecretRoundTrip(bytes: seq<Byte>)
    requires |bytes| == 32
    ensures DecodeSecret(Encode(bytes)) == Ok(bytes)
  {
    EncodingIsClean(bytes);
    RoundTrip(bytes);
    RoundTrip(DecodeSecret(Encode(bytes)).secret);
  }

  /** … and under nothing else: the accepted keys and the secrets are in bijection. */
  lemma {:induction false} AcceptedIsEncoding(key: string, secret: seq<Byte>)
    ensures DecodeSecret(key) == Ok(secret) <==> |secret| == 32 && key == Encode(secret)
  {
    if |secret| == 32 && key == Encode(secret) { SecretRoundTrip(secret); }
  }

  lemma {:induction false} RestIsTail(b: Bits, m: nat)
    requires |b| == 8 * m + 4
    ensures Rest(b, 8) == b[8 * m..]
    decreases |b|
  {
    if m > 0 {
      RestIsTail(b[8..], m - 1);
      assert b[8..][8 * (m - 1)..] == b[8 * m..];
    } else {
      assert b[0..] == b;
    }
  }

  lemma {:induction false} LowerBits(x: nat, k: nat)
    ensures BitsOf(x, k + 1)[1..] == BitsOf(x, k)
  {
    if k > 0 {
      LowerBits(x / 2, k - 1);
      assert BitsOf(x, k + 1)[1..] == BitsOf(x / 2, k)[1..] + [x % 2 == 1];
    }
  }

  lemma {:induction false} ZerosEnd(k: nat)
    ensures Zeros(k + 1) == Zeros(k) + [false]
  {
    if k > 0 { ZerosEnd(k - 1); }
  }

  lemma {:induction false} ZeroBits(x: nat, k: nat)
    ensures BitsOf(x, k + 1) == Zeros(k + 1) <==> x % 2 == 0 && BitsOf(x / 2, k) == Zeros(k)
  {
    ZerosEnd(k);
    assert BitsOf(x, k + 1)[..k] == BitsOf(x / 2, k) && BitsOf(x, k + 1)[k] == (x % 2 == 1);
    assert Zeros(k + 1)[..k] == Zeros(k) && !Zeros(k + 1)[k];
  }

  lemma {:induction false} LowFour(d: Digit)
    ensures BitsOf(d, 5)[1..] == Zeros(4) <==> d == 0 || d == 16
  {
    LowerBits(d, 4);
    ZeroBits(d, 3);
    ZeroBits(d / 2, 2);
    ZeroBits(d / 2 / 2, 1);
    ZeroBits(d / 2 / 2 / 2, 0);
  }

  lemma {:induction false} TailOfLast(ds: seq<nat>)
    requires |ds| == 52
    ensures Rest(Flatten(ds, 5), 8) == BitsOf(ds[51], 5)[1..]
  {
    var init := ds[..51];
    assert ds == init + [ds[51]];
    FlattenAppend(init, ds[51], 5);
    FlattenLength(init);
    RestIsTail(Flatten(ds, 5), 32);
    assert (Flatten(init, 5) + BitsOf(ds[51], 5))[256..] == BitsOf(ds[51], 5)[1..];
  }

  /** A key is accepted if and only if it is 52 characters of the alphabet of which the last, with its
      four bits beyond the secret, is 'A' or 'Q'. */
  lemma {:induction false} AcceptedIffLastClean(key: string)
    ensures DecodeSecret(key).Ok? <==>
      |key| == 52 && (forall i :: 0 <= i < |key| ==> key[i] in ALPHABET) && key[51] in "AQ"
  {
    AllInAlphabet(key);
    if |key| == 52 && UpperBase32(key) {
      CleanIffLast(key);
      AOrQ(key[51]);
    }
  }

  lemma {:induction false} CleanIffLast(key: string)
    requires |key| == 52 && UpperBase32(key)
    ensures CleanTail(key) <==> DigitOf(key[51]) == Some(0) || DigitOf(key[51]) == Some(16)
  {
    LastDigit(key);
    var ds := Digits(key).value;
    TailOfLast(ds);
    LowFour(DigitOf(key[51]).value);
  }

  lemma {:induction false} AOrQ(c: char)
    ensures c in "AQ" <==> DigitOf(c) == Some(0) || DigitOf(c) == Some(16)
  {
    SymbolRead(0);
    SymbolRead(16);
    assert Symbol(0) == 'A' && Symbol(16) == 'Q';
    assert c in "AQ" <==> c == 'A' || c == 'Q';
  }

  lemma {:induction false} AllInAlphabet(s: string)
    ensures UpperBase32(s) <==> forall i :: 0 <= i < |s| ==> s[i] in ALPHABET
  {
    forall i | 0 <= i < |s|
      ensures DigitOf(s[i]).Some? <==> s[i] in ALPHABET
    {
      InAlphabet(s[i]);
    }
  }

  lemma {:induction false} LastDigit(s: string)
    requires s != [] && UpperBase32(s)
    ensures Digits(s).Some? && |Digits(s).value| == |s|
    ensures DigitOf(s[|s| - 1]) == Some(Digits(s).value[|s| - 1])
  {
    SpellOfDigits(s);
    if |s| > 1 {
      assert forall i :: 0 <= i < |s| - 1 ==> s[1..][i] == s[i + 1];
      LastDigit(s[1..]);
    }
  }

  lemma {:induction false} EncodingLength(bytes: seq<Byte>)
    ensures |Encode(bytes)| == 52 ==> |bytes| == 32
  {
    var ds, pad := EncodedBits(bytes);
  }

  /** On 52 symbols the Swift decoder always answers; the Rust one refuses exactly the spellings
      that are not the encoding of that answer. */
  lemma {:induction false} RefusedExactlyUncanonical(key: string)
    requires |key| == 52 && UpperBase32(key)
    ensures Decode(key).Some?
    ensures DecodeSecret(key).Ok? <==> key == Encode(Decode(key).value)
  {
    SpellOfDigits(key);
    var bytes := Decode(key).value;
    if DecodeSecret(key).Ok? {
      DecodersAgree(key);
    }
    if key == Encode(bytes) {
      EncodingLength(bytes);
      SecretRoundTrip(bytes);
    }
  }

  // ── The Swift loop ───────────────────────────────────────────────────────────────────────────

  function Equals(n: nat): string { if n == 0 then [] else "=" + Equals(n - 1) }

  lemma {:induction false} PaddingIgnored(s: string, n: nat)
    ensures Digits(s + Equals(n)) == Digits(s)
  {
    if s == [] {
      assert [] + Equals(n) == Equals(n);
    } else {
      PaddingIgnored(s[1..], n);
      assert (s + Equals(n))[1..] == s[1..] + Equals(n);
    }
  }

  lemma {:induction false} NumberConcat(a: Bits, b: Bits)
    ensures Number(a + b) == Number(a) * Pow(2, |b|) + Number(b)
  {
    if b == [] {
      assert a + [] == a;
    } else {
      var n := |b| - 1;
      NumberConcat(a, b[..n]);
      assert (a + b)[..|a| + n] == a + b[..n];
      assert (a + b)[|a| + n] == b[n];
      Doubled(Number(a), Pow(2, n));
    }
  }

  lemma {:induction false} Doubled(x: nat, p: nat)
    ensures x * (2 * p) == 2 * (x * p)
  {
  }

  /** The value of `2^k` for the shifts that occur. */
  function Shift(k: nat): nat
    requires k <= 12
  {
    match k
    case 0 => 1 case 1 => 2 case 2 => 4 case 3 => 8 case 4 => 16 case 5 => 32 case 6 => 64
    case 7 => 128 case 8 => 256 case 9 => 512 case 10 => 1024 case 11 => 2048 case 12 => 4096
  }

  lemma {:induction false} ShiftIsPower(k: nat)
    requires k <= 12
    ensures Shift(k) == Pow(2, k)
  {
  }

  /** Dropping the high bits of the word does not touch the low ones still to be used. */
  lemma {:induction false} LowBitsSurvive(word: nat, v: Digit, k: nat)
    requires k < 8
    ensures (word * 32 % 0x1_0000_0000 + v) % Shift(k + 5) == word % Shift(k) * 32 + v
  {
    var w := word * 32 % 0x1_0000_0000;
    var q := word * 32 / 0x1_0000_0000;
    assert word * 32 == 0x1_0000_0000 * q + w;
    match k
    case 0 => Low(word, v, 1, q, w, 134217728);
    case 1 => Low(word, v, 2, q, w, 67108864);
    case 2 => Low(word, v, 4, q, w, 33554432);
    case 3 => Low(word, v, 8, q, w, 16777216);
    case 4 => Low(word, v, 16, q, w, 8388608);
    case 5 => Low(word, v, 32, q, w, 4194304);
    case 6 => Low(word, v, 64, q, w, 2097152);
    case 7 => Low(word, v, 128, q, w, 1048576);
  }

  lemma {:induction false} Low(word: nat, v: Digit, p: nat, q: nat, w: nat, c: nat)
    requires p > 0 && c * (32 * p) == 0x1_0000_0000 && word * 32 == 0x1_0000_0000 * q + w
    ensures (w + v) % (32 * p) == word % p * 32 + v
  {
    var m, n := word / p, word % p;
    assert word == p * m + n;
    var rest := 32 * n + v;
    assert rest < 32 * p;
    assert w + v == 32 * (p * m) + rest - 0x1_0000_0000 * q;
    assert 0x1_0000_0000 * q == (32 * p) * (c * q) by { Regroup(c, 32 * p, q); }
    assert 32 * (p * m) == (32 * p) * m;
    assert w + v == (32 * p) * (m - c * q) + rest by { Distribute(32 * p, m, c * q); }
    Remainder(w + v, 32 * p, m - c * q, rest);
  }

  lemma {:induction false} Regroup(c: nat, d: nat, q: nat)
    ensures c * d * q == d * (c * q)
  {
  }

  lemma {:induction false} Distribute(d: int, a: int, b: int)
    ensures d * (a - b) == d * a - d * b
  {
  }

  lemma {:induction false} Remainder(x: int, d: int, q: int, r: int)
    requires d > 0 && 0 <= r < d && x == d * q + r
    ensures x % d == r && x / d == q
  {
    assert x == d * (x / d) + x % d;
    Unique(d, q, r, x / d, x % d);
  }

  lemma {:induction false} Unique(d: int, q: int, r: int, y: int, z: int)
    requires d > 0 && 0 <= r < d && 0 <= z < d && d * q + r == d * y + z
    ensures q == y && r == z
  {
    Distribute(d, q, y);
    if q > y { AtLeast(d, q - y); } else if q < y { AtLeast(d, y - q); Distribute(d, y, q); }
  }

  lemma {:induction false} AtLeast(d: int, e: int)
    requires d > 0 && e >= 1
    ensures d * e >= d
  {
  }

  /** The byte taken from the word is the first eight of its pending bits. */
  lemma {:induction false} ByteOut(word: nat, hi: nat, lo: nat, k: nat)
    requires k <= 4 && hi < 256 && lo < Shift(k) && word % Shift(k + 8) == hi * Shift(k) + lo
    ensures word / Shift(k) % 256 == hi && word % Shift(k) == lo
  {
    var c := Shift(k);
    var q := word / Shift(k + 8);
    assert Shift(k + 8) == 256 * c;
    assert word == 256 * c * q + hi * c + lo;
    assert 256 * c * q == c * (256 * q) by { Regroup(256, c, q); }
    assert word == c * (256 * q + hi) + lo by { assert c * (256 * q + hi) == c * (256 * q) + c * hi; }
    Remainder(word, c, 256 * q + hi, lo);
    Remainder(256 * q + hi, 256, q, hi);
  }

  /** What the loop knows: the bits read are those of the bytes written and of the low end of the
      word. */
  ghost predicate Pending(ds: seq<nat>, out: seq<Byte>, word: nat, tail: Bits)
  {
    |tail| < 8 && Flatten(ds, 5) == Flatten(out, 8) + tail && word % Shift(|tail|) == Number(tail)
  }

  lemma {:induction false} TakeDigit(ds: seq<nat>, out: seq<Byte>, word: nat, tail: Bits, v: Digit)
    requires Pending(ds, out, word, tail)
    ensures var more := tail + BitsOf(v, 5);
      && Flatten(ds + [v], 5) == Flatten(out, 8) + more
      && (word * 32 % 0x1_0000_0000 + v) % Shift(|more|) == Number(more)
  {
    FlattenAppend(ds, v, 5);
    Assoc(Flatten(out, 8), tail, BitsOf(v, 5));
    NumberConcat(tail, BitsOf(v, 5));
    Powers();
    NumberOfBits(v, 5);
    LowBitsSurvive(word, v, |tail|);
  }

  lemma {:induction false} PutByte(out: seq<Byte>, word: nat, more: Bits)
    requires 8 <= |more| < 13 && word % Shift(|more|) == Number(more)
    ensures var k := |more| - 8; var b := word / Shift(k) % 256;
      && Flatten(out, 8) + more == Flatten(out + [b], 8) + more[8..]
      && word % Shift(k) == Number(more[8..])
  {
    var hi, lo := more[..8], more[8..];
    Halves(more, 8);
    NumberConcat(hi, lo);
    Small(hi);
    Small(lo);
    Powers();
    ShiftIsPower(|lo|);
    ByteOut(word, Number(hi), Number(lo), |lo|);
    FlattenAppend(out, Number(hi), 8);
    BitsOfNumber(hi);
    Assoc(Flatten(out, 8), hi, lo);
  }

  lemma {:induction false} Absorb(ds: seq<nat>, out: seq<Byte>, word: nat, tail: Bits, v: Digit)
    requires Pending(ds, out, word, tail)
    ensures var w := Pushed(word, v); var more := tail + BitsOf(v, 5);
      if |more| < 8 then Pending(ds + [v], out, w, more)
      else Pending(ds + [v], out + [Top(w, |more| - 8)], w, more[8..])
  {
    TakeDigit(ds, out, word, tail, v);
    var more := tail + BitsOf(v, 5);
    if |more| >= 8 { PutByte(out, word * 32 % 0x1_0000_0000 + v, more); }
  }

  lemma {:induction false} Settled(ds: seq<nat>, out: seq<Byte>, word: nat, tail: Bits)
    requires Pending(ds, out, word, tail)
    ensures BytesOf(Flatten(ds, 5)) == out
  {
    BytesFit(out);
    GroupsOfFlatten(out, tail, 8);
  }

  /** `(buffer << 5) | v` on 32 bits. */
  function Pushed(word: nat, v: Digit): (w: nat)
    ensures w < 0x1_0000_0000
  {
    word * 32 % 0x1_0000_0000 + v
  }

  /** `(buffer >> k) & 0xff`. */
  function Top(word: nat, k: nat): Byte
    requires k <= 12
  {
    word / Shift(k) % 256
  }

  /** The loop over what is left of the string: bytes written, accumulator and bits in it. */
  function Loop(out: seq<Byte>, word: nat, left: nat, s: string): Option<seq<Byte>>
    requires left < 8
    decreases |s|
  {
    if s == [] || s[0] == '=' then Some(out)
    else
      match DigitOf(s[0])
      case None => None
      case Some(v) =>
        var w := Pushed(word, v);
        if left + 5 < 8 then Loop(out, w, left + 5, s[1..]) else Loop(out + [Top(w, left - 3)], w, left - 3, s[1..])
  }

  lemma {:induction false} AssocDigits(a: seq<nat>, b: seq<nat>, c: seq<nat>)
    ensures a + b + c == a + (b + c)
  {
  }

  /** The loop goes on to decode the digits it has read together with those to come. */
  lemma {:induction false} LoopDecodes(ds: seq<nat>, out: seq<Byte>, word: nat, tail: Bits, s: string)
    requires Pending(ds, out, word, tail)
    ensures Loop(out, word, |tail|, s) ==
      match Digits(s) case None => None case Some(more) => Some(BytesOf(Flatten(ds + more, 5)))
    decreases |s|
  {
    if s == [] || s[0] == '=' {
      assert ds + [] == ds;
      Settled(ds, out, word, tail);
    } else if DigitOf(s[0]).Some? {
      var v := DigitOf(s[0]).value;
      var w, more := Pushed(word, v), tail + BitsOf(v, 5);
      Absorb(ds, out, word, tail, v);
      if |more| < 8 {
        LoopDecodes(ds + [v], out, w, more, s[1..]);
      } else {
        LoopDecodes(ds + [v], out + [Top(w, |more| - 8)], w, more[8..], s[1..]);
      }
      if Digits(s[1..]).Some? { AssocDigits(ds, [v], Digits(s[1..]).value); }
    }
  }

  lemma {:induction false} LoopTakes(out: seq<Byte>, word: nat, left: nat, s: string, v: Digit)
    requires left < 8 && s != [] && s[0] != '=' && DigitOf(s[0]) == Some(v)
    ensures var w := Pushed(word, v);
      Loop(out, word, left, s) ==
        if left + 5 < 8 then Loop(out, w, left + 5, s[1..]) else Loop(out + [Top(w, left - 3)], w, left - 3, s[1..])
  {
  }

  /** The decoder of the C-tor backend: the input is padded to whole blocks, then read. */
  method Base32Decode(s: string) returns (r: Option<seq<Byte>>)
    ensures r == Decode(s)
  {
    var padded := s;
    var rem := |s| % 8;
    if rem != 0 {
      padded := padded + Equals(8 - rem);
      PaddingIgnored(s, 8 - rem);
    }
    LoopIsDecode(padded);
    r := ReadPadded(padded);
  }

  /** Its loop: a 32-bit accumulator that loses its high bits on the way. */
  method ReadPadded(padded: string) returns (r: Option<seq<Byte>>)
    ensures r == Loop([], 0, 0, padded)
  {
    var out: seq<Byte> := [];
    var buffer: nat, bitsLeft: nat, i := 0, 0, 0;
    assert padded[0..] == padded;
    while i < |padded|
      invariant i <= |padded| && bitsLeft < 8
      invariant Loop(out, buffer, bitsLeft, padded[i..]) == Loop([], 0, 0, padded)
    {
      assert padded[i..][1..] == padded[i + 1..];
      var c := padded[i];
      if c == '=' { break; }
      var v := DigitOf(c);
      if v.None? { return None; }
      LoopTakes(out, buffer, bitsLeft, padded[i..], v.value);
      buffer := Pushed(buffer, v.value);
      bitsLeft := bitsLeft + 5;
      if bitsLeft >= 8 {
        bitsLeft := bitsLeft - 8;
        out := out + [Top(buffer, bitsLeft)];
      }
      i := i + 1;
    }
    return Some(out);
  }

  lemma {:induction false} LoopIsDecode(s: string)
    ensures Loop([], 0, 0, s) == Decode(s)
  {
    LoopDecodes([], [], 0, [], s);
    if Digits(s).Some? { assert [] + Digits(s).value == Digits(s).value; }
  }
}
