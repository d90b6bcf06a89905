/**
 Base32 without padding (section 6 of RFC 4648), as loops over a 32-bit
 accumulator that is never masked.
 */
module Base32 {
  import opened Options
  import opened Bits
  import opened Bytes

  const ALPHABET: string := "ABCDEFGHIJKLMNOPQRSTUVWXYZ234567"

  /** Bits, most significant first. */
  type BitString = seq<bool>

  // ---------------------------------------------------------------------------
  // BitString and numbers
  // ---------------------------------------------------------------------------

  /** The low `n` bits of `x`. */
  function LowBits(x: nat, n: nat): (r: BitString)
    ensures |r| == n
  {
    seq(n, i requires 0 <= i < n => BitAt(x, n - 1 - i))
  }

  lemma LowBitsStep(x: nat, n: nat)
    requires n > 0
    ensures LowBits(x, n) == LowBits(x / 2, n - 1) + [x % 2 == 1]
  {
    var r := LowBits(x / 2, n - 1) + [x % 2 == 1];
    forall i | 0 <= i < n ensures LowBits(x, n)[i] == r[i] {
      if i < n - 1 {
        assert r[i] == LowBits(x / 2, n - 1)[i] == BitAt(x / 2, n - 1 - 1 - i);
        assert BitAt(x, n - 1 - i) == BitAt(x / 2, n - 1 - i - 1);
        assert n - 1 - 1 - i == n - 1 - i - 1;
      } else {
        assert LowBits(x, n)[n - 1] == BitAt(x, 0) && r[n - 1] == (x % 2 == 1);
      }
    }
  }

  function Value(bits: BitString): nat
    decreases |bits|
  {
    if bits == [] then 0
    else 2 * Value(bits[..|bits| - 1]) + if bits[|bits| - 1] then 1 else 0
  }

  lemma {:induction false} ValueBound(bits: BitString)
    ensures Value(bits) < Pow2(|bits|)
    decreases |bits|
  {
    if bits != [] { ValueBound(bits[..|bits| - 1]); }
  }

  lemma {:induction false} BitsOfValue(bits: BitString)
    ensures LowBits(Value(bits), |bits|) == bits
    decreases |bits|
  {
    if bits != [] {
      var front := bits[..|bits| - 1];
      BitsOfValue(front);
      LowBitsStep(Value(bits), |bits|);
      assert Value(bits) / 2 == Value(front);
      assert bits == front + [bits[|bits| - 1]];
    }
  }

  lemma {:induction false} ValueOfBits(x: nat, n: nat)
    requires x < Pow2(n)
    ensures Value(LowBits(x, n)) == x
    decreases n
  {
    if n > 0 {
      ValueOfBits(x / 2, n - 1);
      LowBitsStep(x, n);
      assert LowBits(x, n)[..n - 1] == LowBits(x / 2, n - 1);
    }
  }

  lemma {:induction false} LowBitsOfRemainder(x: nat, m: nat, n: nat)
    requires n <= m
    ensures LowBits(x % Pow2(m), n) == LowBits(x, n)
    decreases n
  {
    if n > 0 {
      HalfOfRemainder(x, m);
      LowBitsStep(x, n);
      LowBitsStep(x % Pow2(m), n);
      LowBitsOfRemainder(x / 2, m - 1, n - 1);
    }
  }

  lemma HalfOfRemainder(x: nat, m: nat)
    requires m > 0
    ensures (x % Pow2(m)) / 2 == (x / 2) % Pow2(m - 1) && (x % Pow2(m)) % 2 == x % 2
  {
    var p := Pow2(m - 1);
    var q, r := (x / 2) / p, (x / 2) % p;
    assert x / 2 == q * p + r;
    var y := 2 * r + x % 2;
    assert x == q * (2 * p) + y by {
      assert x == 2 * (x / 2) + x % 2;
      assert 2 * (q * p + r) == q * (2 * p) + 2 * r;
    }
    assert 0 <= y < 2 * p;
    RemainderIs(x, 2 * p, q, y);
  }

  lemma {:induction false} ProductsOrdered(a: nat, b: nat, d: nat)
    requires a <= b
    ensures a * d <= b * d
    decreases b
  {
    if a < b { ProductsOrdered(a, b - 1, d); }
  }

  lemma RemainderIs(x: nat, d: nat, q: nat, r: nat)
    requires d > 0 && x == q * d + r && r < d
    ensures x % d == r
  {
    var k, m := x / d, x % d;
    assert x == k * d + m;
    assert (k + 1) * d == k * d + d && (q + 1) * d == q * d + d;
    if k < q {
      ProductsOrdered(k + 1, q, d);
    } else if q < k {
      ProductsOrdered(q + 1, k, d);
    }
  }

  /** Shifting in `k` bits. */
  lemma {:induction false} ShiftIn(x: nat, n: nat, y: nat, k: nat)
    requires y < Pow2(k)
    ensures LowBits(x * Pow2(k) + y, n + k) == LowBits(x, n) + LowBits(y, k)
    decreases k
  {
    if k == 0 {
      assert x * 1 + 0 == x;
    } else {
      var p := Pow2(k - 1);
      assert x * Pow2(k) + y == 2 * (x * p + y / 2) + y % 2 by { assert x * (2 * p) == 2 * (x * p); }
      ShiftIn(x, n, y / 2, k - 1);
      LowBitsStep(x * Pow2(k) + y, n + k);
      LowBitsStep(y, k);
      assert LowBits(x, n) + (LowBits(y / 2, k - 1) + [y % 2 == 1]) == LowBits(x, n) + LowBits(y / 2, k - 1)
          + [y % 2 == 1];
    }
  }

  /** Unsigned right shift. */
  function ShiftRight(x: nat, k: nat): nat
    decreases k
  {
    if k == 0 then x else ShiftRight(x / 2, k - 1)
  }

  /** The low `n + k` bits split into the bits above `k` and the low `k`. */
  lemma {:induction false} ShiftOut(x: nat, n: nat, k: nat)
    ensures LowBits(x, n + k) == LowBits(ShiftRight(x, k), n) + LowBits(x, k)
    decreases k
  {
    if k > 0 {
      ShiftOut(x / 2, n, k - 1);
      LowBitsStep(x, n + k);
      LowBitsStep(x, k);
      var high, low := LowBits(ShiftRight(x, k), n), LowBits(x / 2, k - 1);
      assert high + (low + [x % 2 == 1]) == high + low + [x % 2 == 1];
    }
  }

  // ---------------------------------------------------------------------------
  // The alphabet
  // ---------------------------------------------------------------------------

  function Char(v: nat): char
    requires v < 32
  {
    if v < 26 then 'A' + v as char else '2' + (v - 26) as char
  }

  /** `indexOf`: 32 for a character outside the alphabet. */
  function CharIndex(c: char): (v: nat)
    ensures v <= 32
  {
    if 'A' <= c <= 'Z' then (c - 'A') as nat
    else if '2' <= c <= '7' then 26 + (c - '2') as nat
    else 32
  }

  lemma AlphabetIs(v: nat)
    requires v < 32
    ensures ALPHABET[v] == Char(v) && CharIndex(Char(v)) == v
  {
  }

  // ---------------------------------------------------------------------------
  // What encoding and decoding mean
  // ---------------------------------------------------------------------------

  function BitsOfBytes(bytes: Bytes): BitString {
    if bytes == [] then [] else LowBits(bytes[0] as nat, 8) + BitsOfBytes(bytes[1..])
  }

  function BitsOfChars(s: string): BitString {
    if s == "" then [] else LowBits(CharIndex(s[0]), 5) + BitsOfChars(s[1..])
  }

  function NoBits(n: nat): (r: BitString)
    ensures |r| == n
  {
    seq(n, i requires 0 <= i < n => false)
  }

  /** One character per five bits; a short last group is filled with zeros. */
  function CharsOfBits(bits: BitString): string
    decreases |bits|
  {
    if bits == [] then ""
    else if |bits| < 5 then [GroupChar(bits + NoBits(5 - |bits|))]
    else [GroupChar(bits[..5])] + CharsOfBits(bits[5..])
  }

  function GroupChar(group: BitString): char
    requires |group| == 5
  {
    ValueBound(group);
    assert Pow2(5) == 32;
    Char(Value(group))
  }

  /** One byte per eight bits; a short last group is dropped. */
  function BytesOfBits(bits: BitString): Bytes
    decreases |bits|
  {
    if |bits| < 8 then []
    else
      ValueBound(bits[..8]);
      assert Pow2(8) == 256;
      [Value(bits[..8]) as Byte] + BytesOfBits(bits[8..])
  }

  function Encode(bytes: Bytes): string { CharsOfBits(BitsOfBytes(bytes)) }

  /** ASCII upper case, the only case mapping that matters for the alphabet's own letters. */
  function ToUpper(s: string): (r: string)
    ensures |r| == |s|
  {
    if s == "" then ""
    else [if 'a' <= s[0] <= 'z' then s[0] - 'a' + 'A' else s[0]] + ToUpper(s[1..])
  }

  /** `replace(/=+$/, '')`. */
  function StripPadding(s: string): string
    decreases |s|
  {
    if s != "" && s[|s| - 1] == '=' then StripPadding(s[..|s| - 1]) else s
  }

  predicate InAlphabet(s: string) {
    forall i :: 0 <= i < |s| ==> CharIndex(s[i]) < 32
  }

  function Decode(value: string): Option<Bytes> {
    var s := StripPadding(ToUpper(value));
    if InAlphabet(s) then Some(BytesOfBits(BitsOfChars(s))) else None
  }

  // ---------------------------------------------------------------------------
  // The loops
  // ---------------------------------------------------------------------------

  const WORD := 0x1_0000_0000

  /** `(acc << k) | low` on 32-bit integers: high bits fall off. */
  function ShiftIn32(acc: nat, k: nat, low: nat): (r: nat)
    requires low < Pow2(k)
    ensures r < WORD
  {
    (acc * Pow2(k) + low) % WORD
  }

  /** Of the wrapped accumulator the low `n + k` bits are right as long as they fit the word. */
  lemma WrapKeepsPending(acc: nat, n: nat, k: nat, low: nat)
    requires low < Pow2(k) && n + k <= 32
    ensures LowBits(ShiftIn32(acc, k, low), n + k) == LowBits(acc, n) + LowBits(low, k)
  {
    WordWidth();
    LowBitsOfRemainder(acc * Pow2(k) + low, 32, n + k);
    ShiftIn(acc, n, low, k);
  }

  /** `(acc >>> k) & mask`, the mask keeping `n` bits. */
  function Field(acc: nat, k: nat, n: nat): (r: nat)
    ensures r < Pow2(n)
  {
    ShiftRight(acc, k) % Pow2(n)
  }

  lemma FieldIsValue(acc: nat, k: nat, n: nat)
    ensures LowBits(acc, n + k)[..n] == LowBits(ShiftRight(acc, k), n)
    ensures LowBits(acc, n + k)[n..] == LowBits(acc, k)
    ensures Value(LowBits(acc, n + k)[..n]) == Field(acc, k, n)
  {
    ShiftOut(acc, n, k);
    LowBitsOfRemainder(ShiftRight(acc, k), n, n);
    ValueOfBits(Field(acc, k, n), n);
  }

  /** Taking one character off the front of the pending bits. */
  lemma TakeChar(acc: nat, bits: nat, rest: BitString)
    requires bits >= 5
    ensures CharsOfBits(LowBits(acc, bits) + rest)
            == [Char(Field(acc, bits - 5, 5))] + CharsOfBits(LowBits(acc, bits - 5) + rest)
  {
    var all, pending := LowBits(acc, bits) + rest, LowBits(acc, bits);
    FieldIsValue(acc, bits - 5, 5);
    assert all[..5] == pending[..5] && all[5..] == pending[5..] + rest;
  }

  lemma NoBitsAreLow(n: nat)
    ensures LowBits(0, n) == NoBits(n)
  {
    forall i | 0 <= i < n ensures LowBits(0, n)[i] == NoBits(n)[i] { ZeroHasNoBit(n - 1 - i); }
  }

  /** The last, filled group. */
  lemma LastChar(acc: nat, bits: nat)
    requires 0 < bits < 5
    ensures CharsOfBits(LowBits(acc, bits)) == [Char(Field(ShiftIn32(acc, 5 - bits, 0), 0, 5))]
  {
    var shifted := ShiftIn32(acc, 5 - bits, 0);
    WrapKeepsPending(acc, bits, 5 - bits, 0);
    NoBitsAreLow(5 - bits);
    FieldIsValue(shifted, 0, 5);
    assert LowBits(shifted, 5)[..5] == LowBits(shifted, 5);
  }

  /** Shifting a byte in moves its bits from the input to the pending bits. */
  lemma ReadByte(acc: nat, bits: nat, value: Bytes, i: nat)
    requires i < |value| && bits < 5
    ensures Pow2(8) == 256
    ensures LowBits(acc, bits) + BitsOfBytes(value[i..]) == LowBits(ShiftIn32(acc, 8, value[i] as nat), bits + 8)
        + BitsOfBytes(value[i + 1..])
  {
    assert Pow2(8) == 256;
    var byte, rest := value[i] as nat, BitsOfBytes(value[i + 1..]);
    assert value[i..][1..] == value[i + 1..] && BitsOfBytes(value[i..]) == LowBits(byte, 8) + rest;
    WrapKeepsPending(acc, bits, 8, byte);
    assert LowBits(acc, bits) + (LowBits(byte, 8) + rest) == LowBits(acc, bits) + LowBits(byte, 8) + rest;
  }

  method Base32Encode(value: Bytes) returns (output: string)
    ensures output == Encode(value)
  {
    var bits, acc := 0, 0;
    output := "";
    assert value[0..] == value && LowBits(0, 0) + BitsOfBytes(value) == BitsOfBytes(value);
    for i := 0 to |value|
      invariant bits < 5
      invariant output + CharsOfBits(LowBits(acc, bits) + BitsOfBytes(value[i..])) == Encode(value)
    {
      assert Pow2(8) == 256;
      ghost var rest := BitsOfBytes(value[i + 1..]);
      ReadByte(acc, bits, value, i);
      acc := ShiftIn32(acc, 8, value[i] as nat);
      bits := bits + 8;
      while bits >= 5
        invariant bits <= 12
        invariant output + CharsOfBits(LowBits(acc, bits) + rest) == Encode(value)
      {
        TakeChar(acc, bits, rest);
        AlphabetIs(Field(acc, bits - 5, 5));
        output := output + [ALPHABET[Field(acc, bits - 5, 5)]];
        bits := bits - 5;
      }
    }
    assert LowBits(acc, bits) + BitsOfBytes(value[|value|..]) == LowBits(acc, bits);
    if bits > 0 {
      assert Pow2(5 - bits) > 0;
      LastChar(acc, bits);
      AlphabetIs(Field(ShiftIn32(acc, 5 - bits, 0), 0, 5));
      output := output + [ALPHABET[Field(ShiftIn32(acc, 5 - bits, 0), 0, 5)]];
    }
  }

  /** Taking one byte off the front of the pending bits. */
  lemma TakeByte(acc: nat, bits: nat, rest: BitString)
    requires bits >= 8
    ensures Pow2(8) == 256
    ensures BytesOfBits(LowBits(acc, bits) + rest)
            == [Field(acc, bits - 8, 8) as Byte] + BytesOfBits(LowBits(acc, bits - 8) + rest)
  {
    assert Pow2(8) == 256;
    var all, pending := LowBits(acc, bits) + rest, LowBits(acc, bits);
    FieldIsValue(acc, bits - 8, 8);
    assert all[..8] == pending[..8] && all[8..] == pending[8..] + rest;
  }

  /** Shifting a character's index in moves its bits from the input to the pending bits. */
  lemma ReadChar(acc: nat, bits: nat, s: string, i: nat)
    requires i < |s| && CharIndex(s[i]) < 32 && bits < 8
    ensures Pow2(5) == 32
    ensures LowBits(acc, bits) + BitsOfChars(s[i..]) == LowBits(ShiftIn32(acc, 5, CharIndex(s[i])), bits + 5)
        + BitsOfChars(s[i + 1..])
  {
    assert Pow2(5) == 32;
    var index, rest := CharIndex(s[i]), BitsOfChars(s[i + 1..]);
    assert s[i..][1..] == s[i + 1..] && BitsOfChars(s[i..]) == LowBits(index, 5) + rest;
    WrapKeepsPending(acc, bits, 5, index);
    assert LowBits(acc, bits) + (LowBits(index, 5) + rest) == LowBits(acc, bits) + LowBits(index, 5) + rest;
  }

  lemma NothingPending(acc: nat, bits: nat, s: string)
    requires bits < 8
    ensures BytesOfBits(LowBits(acc, bits) + BitsOfChars(s[|s|..])) == []
  {
    assert LowBits(acc, bits) + BitsOfChars(s[|s|..]) == LowBits(acc, bits);
  }

  method Base32Decode(value: string) returns (r: Option<Bytes>)
    ensures r == Decode(value)
  {
    var s := StripPadding(ToUpper(value));
    ghost var whole := BytesOfBits(BitsOfChars(s));
    var bits, acc, output := 0, 0, [];
    assert s[0..] == s && LowBits(0, 0) + BitsOfChars(s) == BitsOfChars(s);
    for i := 0 to |s|
      invariant bits < 8 && forall j :: 0 <= j < i ==> CharIndex(s[j]) < 32
      invariant output + BytesOfBits(LowBits(acc, bits) + BitsOfChars(s[i..])) == whole
    {
      var index := CharIndex(s[i]);
      if index == 32 { return None; }
      ghost var rest := BitsOfChars(s[i + 1..]);
      ReadChar(acc, bits, s, i);
      acc := ShiftIn32(acc, 5, index);
      bits := bits + 5;
      if bits >= 8 {
        TakeByte(acc, bits, rest);
        output := output + [Field(acc, bits - 8, 8) as Byte];
        bits := bits - 8;
      }
    }
    NothingPending(acc, bits, s);
    assert output == whole;
    r := Some(output);
  }

  // ---------------------------------------------------------------------------
  // Round trip
  // ---------------------------------------------------------------------------

  lemma {:induction false} BitsOfBytesLength(bytes: Bytes)
    ensures |BitsOfBytes(bytes)| == 8 * |bytes|
  {
    if bytes != [] { BitsOfBytesLength(bytes[1..]); }
  }

  /** How many bits fill the last character. */
  function Filler(n: nat): nat { (5 - n % 5) % 5 }

  lemma GroupCharBits(group: BitString)
    requires |group| == 5
    ensures LowBits(CharIndex(GroupChar(group)), 5) == group && CharIndex(GroupChar(group)) < 32
  {
    ValueBound(group);
    assert Pow2(5) == 32;
    AlphabetIs(Value(group));
    BitsOfValue(group);
  }

  /** What encoding leaves: the bits with the last group filled, one character per five of them. */
  predicate KeepsBits(s: string, bits: BitString) {
    BitsOfChars(s) == bits + NoBits(Filler(|bits|)) && |s| == (|bits| + 4) / 5 && InAlphabet(s)
  }

  lemma OneChar(group: BitString)
    requires |group| == 5
    ensures BitsOfChars([GroupChar(group)]) == group && InAlphabet([GroupChar(group)])
  {
    GroupCharBits(group);
    var s := [GroupChar(group)];
    assert s[1..] == "" && BitsOfChars(s) == LowBits(CharIndex(s[0]), 5) + [];
  }

  lemma OneMoreChar(group: BitString, rest: BitString, s: string)
    requires |group| == 5 && KeepsBits(s, rest)
    ensures KeepsBits([GroupChar(group)] + s, group + rest)
  {
    GroupCharBits(group);
    var t := [GroupChar(group)] + s;
    var bits, filler := group + rest, NoBits(Filler(|rest|));
    assert t[1..] == s;
    assert |bits| % 5 == |rest| % 5;
    assert group + (rest + filler) == bits + filler;
    forall i | 0 <= i < |t| ensures CharIndex(t[i]) < 32 {
      if i > 0 { assert t[i] == s[i - 1]; }
    }
  }

  lemma {:induction false} CharsKeepBits(bits: BitString)
    ensures KeepsBits(CharsOfBits(bits), bits)
    decreases |bits|
  {
    if |bits| == 0 {
      assert bits + NoBits(0) == [];
    } else if |bits| < 5 {
      OneChar(bits + NoBits(5 - |bits|));
    } else {
      CharsKeepBits(bits[5..]);
      OneMoreChar(bits[..5], bits[5..], CharsOfBits(bits[5..]));
      assert bits == bits[..5] + bits[5..];
    }
  }

  lemma {:induction false} BytesKept(bytes: Bytes, filler: BitString)
    requires |filler| < 8
    ensures BytesOfBits(BitsOfBytes(bytes) + filler) == bytes
    decreases |bytes|
  {
    if bytes == [] {
      assert BitsOfBytes(bytes) + filler == filler;
    } else {
      assert Pow2(8) == 256;
      var first := LowBits(bytes[0] as nat, 8);
      var all := BitsOfBytes(bytes) + filler;
      assert all[..8] == first && all[8..] == BitsOfBytes(bytes[1..]) + filler;
      ValueOfBits(bytes[0] as nat, 8);
      BytesKept(bytes[1..], filler);
    }
  }

  function Padding(k: nat): (r: string)
    ensures |r| == k && forall i :: 0 <= i < k ==> r[i] == '='
  {
    if k == 0 then "" else Padding(k - 1) + "="
  }

  lemma {:induction false} UpperKeeps(s: string)
    requires forall i :: 0 <= i < |s| ==> !('a' <= s[i] <= 'z')
    ensures ToUpper(s) == s
  {
    if s != "" { UpperKeeps(s[1..]); }
  }

  lemma {:induction false} PaddingStripped(s: string, k: nat)
    requires InAlphabet(s)
    ensures StripPadding(s + Padding(k)) == s
    decreases k
  {
    if k == 0 {
      assert s + "" == s;
    } else {
      assert (s + Padding(k))[..|s| + k - 1] == s + Padding(k - 1);
      PaddingStripped(s, k - 1);
    }
  }

  /** Every byte string survives encoding, however much padding is put back, in ceil(8n/5) characters. */
  lemma RoundTrip(bytes: Bytes, padding: nat)
    ensures Decode(Encode(bytes) + Padding(padding)) == Some(bytes)
    ensures |Encode(bytes)| == (8 * |bytes| + 4) / 5
  {
    var bits, s := BitsOfBytes(bytes), Encode(bytes);
    BitsOfBytesLength(bytes);
    CharsKeepBits(bits);
    UpperKeeps(s + Padding(padding));
    PaddingStripped(s, padding);
    BytesKept(bytes, NoBits(Filler(|bits|)));
  }

  // ---------------------------------------------------------------------------
  // The numbers behind the characters
  // ---------------------------------------------------------------------------

  /** Table 3 of RFC 4648, by character code: the letters, then the digits from 2 on. */
  lemma AlphabetIsRfc4648(v: nat)
    requires v < 32
    ensures ALPHABET[v] as int == if v < 26 then 65 + v else 24 + v
    ensures CharIndex(ALPHABET[v]) == v
  {
  }

  /** The number a string of alphabet characters writes in base 32, most significant first. */
  function Number32(s: string): nat {
    if s == "" then 0 else CharIndex(s[0]) * Pow2(5 * (|s| - 1)) + Number32(s[1..])
  }

  lemma {:induction false} ValueConcat(a: BitString, b: BitString)
    ensures Value(a + b) == Value(a) * Pow2(|b|) + Value(b)
    decreases |b|
  {
    if b == [] {
      assert a + b == a;
    } else {
      var front := b[..|b| - 1];
      ValueConcat(a, front);
      assert (a + b)[..|a + b| - 1] == a + front;
      assert 2 * (Value(a) * Pow2(|front|)) == Value(a) * Pow2(|b|);
    }
  }

  lemma {:induction false} NumberOfBits(s: string)
    requires InAlphabet(s)
    ensures |BitsOfChars(s)| == 5 * |s| && Value(BitsOfChars(s)) == Number32(s)
  {
    if s != "" {
      var rest := s[1..];
      assert forall i :: 0 <= i < |rest| ==> rest[i] == s[i + 1];
      NumberOfBits(rest);
      assert Pow2(5) == 32;
      ValueOfBits(CharIndex(s[0]), 5);
      ValueConcat(LowBits(CharIndex(s[0]), 5), BitsOfChars(rest));
    }
  }

  lemma {:induction false} PowersAgree(n: nat)
    ensures Pow256(n) == Pow2(8 * n)
  {
    if n > 0 {
      PowersAgree(n - 1);
      assert Pow2(8 * n) == 2 * Pow2(8 * n - 1) == 4 * Pow2(8 * n - 2) == 8 * Pow2(8 * n - 3) == 16 * Pow2(8 * n - 4);
      var m := 8 * n - 4;
      assert Pow2(m) == 2 * Pow2(m - 1) == 4 * Pow2(m - 2) == 8 * Pow2(m - 3) == 16 * Pow2(m - 4);
    }
  }

  /** The bits of a byte string write the number its bytes write. */
  lemma {:induction false} NumberOfBytes(bytes: Bytes)
    ensures |BitsOfBytes(bytes)| == 8 * |bytes| && Value(BitsOfBytes(bytes)) == Number256(bytes)
  {
    if bytes != [] {
      NumberOfBytes(bytes[1..]);
      assert Pow2(8) == 256;
      ValueOfBits(bytes[0] as nat, 8);
      ValueConcat(LowBits(bytes[0] as nat, 8), BitsOfBytes(bytes[1..]));
      FirstByteCounts(bytes);
      PowersAgree(|bytes| - 1);
    }
  }

  lemma {:induction false} NoBitsAreZero(n: nat)
    ensures Value(NoBits(n)) == 0
  {
    if n > 0 {
      NoBitsAreZero(n - 1);
      assert NoBits(n)[..n - 1] == NoBits(n - 1);
    }
  }

  lemma KeptBitsWriteNumber(s: string, bits: BitString)
    requires KeepsBits(s, bits)
    ensures Number32(s) == Value(bits) * Pow2(Filler(|bits|))
  {
    NumberOfBits(s);
    ValueConcat(bits, NoBits(Filler(|bits|)));
    NoBitsAreZero(Filler(|bits|));
  }

  /** The encoding writes the number of the bytes, shifted to whole characters, in base 32. */
  lemma EncodeWritesNumber(bytes: Bytes)
    ensures InAlphabet(Encode(bytes))
    ensures Number32(Encode(bytes)) == Number256(bytes) * Pow2(Filler(8 * |bytes|))
  {
    var bits, filled := BitsOfBytes(bytes), Pow2(Filler(8 * |bytes|));
    NumberOfBytes(bytes);
    CharsKeepBits(bits);
    KeptBitsWriteNumber(Encode(bytes), bits);
    assert Pow2(Filler(|bits|)) == filled;
    assert Value(bits) * filled == Number256(bytes) * filled;
  }

  lemma {:induction false} BytesWriteBits(bits: BitString)
    ensures |BytesOfBits(bits)| == |bits| / 8
    ensures bits == BitsOfBytes(BytesOfBits(bits)) + bits[|bits| / 8 * 8..]
    decreases |bits|
  {
    if |bits| >= 8 {
      var rest := bits[8..];
      BytesWriteBits(rest);
      ValueBound(bits[..8]);
      assert Pow2(8) == 256;
      BitsOfValue(bits[..8]);
      assert BytesOfBits(bits)[1..] == BytesOfBits(rest);
      assert rest[|rest| / 8 * 8..] == bits[|bits| / 8 * 8..];
      assert bits == bits[..8] + rest;
    }
  }

  /** Decoding keeps the whole bytes of that number and drops the bits that are left over. */
  lemma DecodeReadsNumber(value: string)
    requires Decode(value).Some?
    ensures var s := StripPadding(ToUpper(value));
            && |Decode(value).value| == 5 * |s| / 8
            && Number256(Decode(value).value) == Number32(s) / Pow2(5 * |s| % 8)
  {
    var s := StripPadding(ToUpper(value));
    var bits := BitsOfChars(s);
    var bytes, tail := BytesOfBits(bits), bits[|bits| / 8 * 8..];
    NumberOfBits(s);
    BytesWriteBits(bits);
    NumberOfBytes(bytes);
    ValueConcat(BitsOfBytes(bytes), tail);
    ValueBound(tail);
    QuotientIs(Number32(s), Pow2(|tail|), Number256(bytes), Value(tail));
  }

  lemma QuotientIs(x: nat, d: nat, q: nat, r: nat)
    requires d > 0 && x == q * d + r && r < d
    ensures x / d == q
  {
    var k := x / d;
    assert x == k * d + x % d;
    assert (k + 1) * d == k * d + d && (q + 1) * d == q * d + d;
    if k < q {
      ProductsOrdered(k + 1, q, d);
    } else if q < k {
      ProductsOrdered(q + 1, k, d);
    }
  }

  /** A letter of either case or a digit from 2 to 7. */
  predicate Decodable(c: char) { 'A' <= c <= 'Z' || 'a' <= c <= 'z' || '2' <= c <= '7' }

  lemma {:induction false} UpperAt(s: string, i: nat)
    requires i < |s|
    ensures Decodable(s[i]) <==> CharIndex(ToUpper(s)[i]) < 32
    ensures s[i] == '=' <==> ToUpper(s)[i] == '='
  {
    if i > 0 { UpperAt(s[1..], i - 1); }
  }

  lemma {:induction false} StrippedIs(s: string)
    ensures var m := |StripPadding(s)|;
            && m <= |s| && StripPadding(s) == s[..m] && (m > 0 ==> s[m - 1] != '=')
            && forall i :: m <= i < |s| ==> s[i] == '='
    decreases |s|
  {
    if s != "" && s[|s| - 1] == '=' { StrippedIs(s[..|s| - 1]); }
  }

  /** The first `n` characters belong to the alphabet, in either case, and the others are equal signs. */
  ghost predicate PaddedFrom(value: string, n: nat) {
    && n <= |value| && (forall i :: 0 <= i < n ==> Decodable(value[i]))
    && forall i :: n <= i < |value| ==> value[i] == '='
  }

  /** All but trailing equal signs must be letters or digits of the alphabet. */
  lemma DecodesExactly(value: string)
    ensures Decode(value).Some? <==> exists n: nat :: PaddedFrom(value, n)
  {
    var upper := ToUpper(value);
    var s := StripPadding(upper);
    StrippedIs(upper);
    forall i | 0 <= i < |value|
      ensures Decodable(value[i]) <==> CharIndex(upper[i]) < 32
      ensures value[i] == '=' <==> upper[i] == '='
    {
      UpperAt(value, i);
    }
    assert forall i :: 0 <= i < |s| ==> s[i] == upper[i];
    if Decode(value).Some? { assert PaddedFrom(value, |s|); }
    if n: nat :| PaddedFrom(value, n) {
      assert |s| <= n;
    }
  }
}
