/**
 Time-based one-time passwords (RFC 6238 over the truncation of section 5.3 of
 RFC 4226), for integer millisecond times.
 */
module Totp {
  import opened Bytes
  import B = Base32

  datatype Result<T> = Ok(value: T) | Err(error: Error)

  datatype Error = RangeError | InvalidBase32

  /** HMAC-SHA-1 of a key and a message. */
  type Hmac = (Bytes, Bytes) -> Bytes

  const STEP_MS := 30000

  // ---------------------------------------------------------------------------
  // Truncation and digits
  // ---------------------------------------------------------------------------

  /** `digest[i] ?? 0`. */
  function ByteOrZero(digest: Bytes, i: int): nat {
    if 0 <= i < |digest| then digest[i] as nat else 0
  }

  function Offset(digest: Bytes): nat { ByteOrZero(digest, |digest| - 1) % 16 }

  /** The four shifted fields do not overlap, so their `|` is their sum. */
  function Truncate(digest: Bytes): nat {
    var o := Offset(digest);
    ByteOrZero(digest, o) % 128 * 0x100_0000 + ByteOrZero(digest, o + 1) * 0x1_0000
    + ByteOrZero(digest, o + 2) * 0x100 + ByteOrZero(digest, o + 3)
  }

  function Digit(n: nat): char
    requires n < 10
  {
    '0' + n as char
  }

  function Decimal(n: nat): (s: string)
    ensures |s| > 0
  {
    if n < 10 then [Digit(n)] else Decimal(n / 10) + [Digit(n % 10)]
  }

  function PadStart(s: string, width: nat): string
    decreases width - |s|
  {
    if |s| >= width then s else PadStart("0" + s, width)
  }

  function Code(digest: Bytes): string { PadStart(Decimal(Truncate(digest) % 1_000_000), 6) }

  /** The number a string of digits denotes. */
  function Number(s: string): nat
    decreases |s|
  {
    if s == "" then 0
    else
      var c := s[|s| - 1];
      10 * Number(s[..|s| - 1]) + if '0' <= c <= '9' then (c - '0') as nat else 0
  }

  predicate Digits(s: string) { forall i :: 0 <= i < |s| ==> '0' <= s[i] <= '9' }

  function Pow10(n: nat): (r: nat)
    ensures r > 0
  {
    if n == 0 then 1 else 10 * Pow10(n - 1)
  }

  lemma {:induction false} DecimalIs(n: nat, width: nat)
    requires n < Pow10(width) && width > 0
    ensures Digits(Decimal(n)) && Number(Decimal(n)) == n && |Decimal(n)| <= width
    decreases n
  {
    var s := Decimal(n);
    if n < 10 {
      assert s[..0] == "";
      assert Number(s) == 10 * Number(s[..0]) + n;
    } else {
      assert width > 1;
      DecimalIs(n / 10, width - 1);
      assert s[..|s| - 1] == Decimal(n / 10);
    }
  }

  lemma {:induction false} LeadingZero(s: string)
    ensures Number("0" + s) == Number(s)
    decreases |s|
  {
    var t := "0" + s;
    if s == "" {
      assert t[..0] == "";
    } else {
      LeadingZero(s[..|s| - 1]);
      assert t[..|t| - 1] == "0" + s[..|s| - 1];
    }
  }

  lemma {:induction false} PadStartIs(s: string, width: nat)
    requires Digits(s) && |s| <= width
    ensures Digits(PadStart(s, width)) && |PadStart(s, width)| == width && Number(PadStart(s, width)) == Number(s)
    decreases width - |s|
  {
    if |s| < width {
      LeadingZero(s);
      PadStartIs("0" + s, width);
    }
  }

  /** A 20-byte MAC is truncated within its bounds, below 2^31, to exactly six digits. */
  lemma TruncationIs(digest: Bytes)
    ensures |digest| == 20 ==> Offset(digest) + 3 < |digest|
    ensures Truncate(digest) < 0x8000_0000
    ensures |Code(digest)| == 6 && Digits(Code(digest)) && Number(Code(digest)) == Truncate(digest) % 1_000_000
  {
    var n := Truncate(digest) % 1_000_000;
    assert Pow10(3) == 1000;
    assert Pow10(6) == 1_000_000;
    DecimalIs(n, 6);
    PadStartIs(Decimal(n), 6);
  }

  /**
   Section 5.3 of RFC 4226: four bytes from the place the last one names, big-endian, without the sign bit, and
   the last six digits of that number.
  */
  ghost predicate IsCodeOf(code: string, digest: Bytes)
    requires |digest| == 20
  {
    var o := digest[19] as nat % 16;
    && |code| == 6 && Digits(code)
    && Number(code) == Number256([(digest[o] as nat % 128) as Byte] + digest[o + 1..o + 4]) % 1_000_000
  }

  lemma NumberOfFour(a: Byte, b: Byte, c: Byte, d: Byte)
    ensures Number256([a, b, c, d]) == a as nat * 0x100_0000 + b as nat * 0x1_0000 + c as nat * 0x100 + d as nat
  {
    assert [a, b, c, d][..3] == [a, b, c];
    assert [a, b, c][..2] == [a, b];
    assert [a, b][..1] == [a];
    assert [a][..0] == [];
    assert Number256([a]) == a as nat;
    assert Number256([a, b]) == 256 * Number256([a]) + b as nat;
    assert Number256([a, b, c]) == 256 * Number256([a, b]) + c as nat;
    assert Number256([a, b, c, d]) == 256 * Number256([a, b, c]) + d as nat;
  }

  /** The truncated number is written, big-endian, by the four masked bytes. */
  lemma TruncationReadsBigEndian(digest: Bytes)
    requires |digest| == 20
    ensures var o := digest[19] as nat % 16;
            BigEndian(Truncate(digest), 4) == [(digest[o] as nat % 128) as Byte] + digest[o + 1..o + 4]
  {
    var o := digest[19] as nat % 16;
    var word := [(digest[o] as nat % 128) as Byte] + digest[o + 1..o + 4];
    assert word == [(digest[o] as nat % 128) as Byte, digest[o + 1], digest[o + 2], digest[o + 3]];
    NumberOfFour((digest[o] as nat % 128) as Byte, digest[o + 1], digest[o + 2], digest[o + 3]);
    assert Truncate(digest) == Number256(word);
    NumberIsWritten(word);
  }

  lemma {:induction false} LastDigitIs(s: string)
    requires Digits(s) && s != ""
    ensures var n := |s| - 1;
            && Number(s) / 10 == Number(s[..n]) && '0' <= s[n] <= '9' && Number(s) % 10 == (s[n] - '0') as nat
            && Digits(s[..n])
  {
  }

  lemma {:induction false} DigitsDetermine(s: string, t: string)
    requires Digits(s) && Digits(t) && |s| == |t| && Number(s) == Number(t)
    ensures s == t
    decreases |s|
  {
    if s != "" {
      var n := |s| - 1;
      LastDigitIs(s);
      LastDigitIs(t);
      DigitsDetermine(s[..n], t[..n]);
      assert s == s[..n] + [s[n]] && t == t[..n] + [t[n]];
    }
  }

  /** Those six digits, and no other string, are the code of a MAC. */
  lemma CodeIsExactly(code: string, digest: Bytes)
    requires |digest| == 20
    ensures code == Code(digest) <==> IsCodeOf(code, digest)
  {
    var o := digest[19] as nat % 16;
    var word := [(digest[o] as nat % 128) as Byte] + digest[o + 1..o + 4];
    TruncationIs(digest);
    assert word == [(digest[o] as nat % 128) as Byte, digest[o + 1], digest[o + 2], digest[o + 3]];
    NumberOfFour((digest[o] as nat % 128) as Byte, digest[o + 1], digest[o + 2], digest[o + 3]);
    assert Truncate(digest) == Number256(word);
    if IsCodeOf(code, digest) { DigitsDetermine(code, Code(digest)); }
  }

  // ---------------------------------------------------------------------------
  // Codes and their verification
  // ---------------------------------------------------------------------------

  function Counter(timestamp: nat): nat { timestamp / STEP_MS }

  function CodeOf(key: Bytes, counter: nat, hmac: Hmac): string { Code(hmac(key, BigEndian(counter, 8))) }

  /** A negative counter cannot be written as an unsigned integer. */
  function TotpAt(secret: string, timestamp: int, hmac: Hmac): Result<string> {
    if timestamp < 0 then Err(RangeError)
    else
      var key := B.Decode(secret);
      if key.None? then Err(InvalidBase32) else Ok(CodeOf(key.value, Counter(timestamp), hmac))
  }

  /** The previous, the current and the next code. */
  predicate InWindow(key: Bytes, code: string, timestamp: nat, hmac: Hmac)
    requires timestamp >= STEP_MS
  {
    var c := Counter(timestamp);
    code == CodeOf(key, c - 1, hmac) || code == CodeOf(key, c, hmac) || code == CodeOf(key, c + 1, hmac)
  }

  /** The MAC of the counter as an 8-byte big-endian number has this code. */
  ghost predicate CodeAt(key: Bytes, code: string, counter: int, hmac: Hmac) {
    exists message: Bytes :: |message| == 8 && Number256(message) == counter
                             && |hmac(key, message)| == 20 && IsCodeOf(code, hmac(key, message))
  }

  /** It is the code of the previous, the current or the next 30 seconds. */
  ghost predicate CodeNear(key: Bytes, code: string, timestamp: nat, hmac: Hmac) {
    exists c :: timestamp / 30_000 - 1 <= c <= timestamp / 30_000 + 1 && CodeAt(key, code, c, hmac)
  }

  /** SHA-1 gives 20 bytes, and the counters around this time fit in 8 bytes. */
  ghost predicate InRange(timestamp: nat, hmac: Hmac) {
    (forall key, message :: |hmac(key, message)| == 20) && timestamp / 30_000 + 1 < Pow256(8)
  }

  lemma CodeOfIsExactly(key: Bytes, code: string, counter: nat, hmac: Hmac)
    requires counter < Pow256(8) && forall k, message :: |hmac(k, message)| == 20
    ensures code == CodeOf(key, counter, hmac) <==> CodeAt(key, code, counter, hmac)
  {
    var message := BigEndian(counter, 8);
    BigEndianIs(counter, 8);
    QuotientIsUnique(counter, Pow256(8), 0, counter);
    CodeIsExactly(code, hmac(key, message));
    if CodeAt(key, code, counter, hmac) {
      var other: Bytes :| |other| == 8 && Number256(other) == counter && IsCodeOf(code, hmac(key, other));
      NumberIsWritten(other);
    }
  }

  /** What `VerifyTotp` accepts: the code of the previous, the current or the next 30 seconds, and nothing else. */
  lemma AcceptsExactly(key: Bytes, code: string, timestamp: nat, hmac: Hmac)
    requires timestamp >= 30_000 && InRange(timestamp, hmac)
    ensures STEP_MS == 30_000
    ensures InWindow(key, code, timestamp, hmac)
            <==> CodeNear(key, code, timestamp, hmac)
  {
    var c := timestamp / 30_000;
    CodeOfIsExactly(key, code, c - 1, hmac);
    CodeOfIsExactly(key, code, c, hmac);
    CodeOfIsExactly(key, code, c + 1, hmac);
  }

  method VerifyTotp(secret: string, code: string, timestamp: nat, hmac: Hmac) returns (r: Result<bool>)
    ensures timestamp < STEP_MS ==> r == Err(RangeError)
    ensures timestamp >= STEP_MS && B.Decode(secret).None? ==> r == Err(InvalidBase32)
    ensures timestamp >= STEP_MS && B.Decode(secret).Some?
        ==> r == Ok(InWindow(B.Decode(secret).value, code, timestamp, hmac))
  {
    var offsets := [-30000, 0, 30000];
    for i := 0 to 3
      invariant i > 0 ==> timestamp >= STEP_MS && B.Decode(secret).Some?
      invariant forall j :: 0 <= j < i ==> TotpAt(secret, timestamp + offsets[j], hmac) != Ok(code)
    {
      var expected := TotpAt(secret, timestamp + offsets[i], hmac);
      if expected.Err? { return Err(expected.error); }
      NeighbourCounters(timestamp);
      if expected.value == code { return Ok(true); }
    }
    NeighbourCounters(timestamp);
    assert TotpAt(secret, timestamp + offsets[0], hmac) != Ok(code);
    assert TotpAt(secret, timestamp + offsets[1], hmac) != Ok(code);
    assert TotpAt(secret, timestamp + offsets[2], hmac) != Ok(code);
    r := Ok(false);
  }

  lemma NeighbourCounters(timestamp: nat)
    ensures timestamp >= STEP_MS ==> Counter(timestamp - STEP_MS) == Counter(timestamp) - 1
    ensures Counter(timestamp + STEP_MS) == Counter(timestamp) + 1
  {
  }

  /**
   A code is accepted whenever it was issued at most one step away from the check,
   and its counter is never further than one.
  */
  lemma IssuedCodeIsAccepted(secret: string, issued: nat, checked: nat, hmac: Hmac)
    requires checked >= STEP_MS && TotpAt(secret, issued, hmac).Ok?
    ensures -STEP_MS <= issued - checked <= STEP_MS
            ==> InWindow(B.Decode(secret).value, TotpAt(secret, issued, hmac).value, checked, hmac)
    ensures (issued - checked >= 2 * STEP_MS || checked - issued >= 2 * STEP_MS)
            ==> Counter(issued) > Counter(checked) + 1 || Counter(issued) < Counter(checked) - 1
  {
  }
}
