/** Redis records and their two byte encodings: the archive's and the one that is hashed. */
module RedisRecords {
  import opened Wrappers
  import opened Bytes

  const MAXIMUM_BYTES := 500 * 1024 * 1024 * 1024
  const MAXIMUM_KEYS := 1_000_000
  const MAXIMUM_KEY := 1024 * 1024
  const MAXIMUM_KEY_INDEX := 64 * 1024 * 1024
  const MAXIMUM_VALUE := 64 * 1024 * 1024

  datatype Record = Record(database: nat, expiry: int, key: ByteString, value: ByteString)

  // ---------------------------------------------------------------------------------------
  // Big-endian numbers

  function Pow256(w: nat): nat {
    if w == 0 then 1 else 256 * Pow256(w - 1)
  }

  function BigEndian(n: nat, w: nat): (r: ByteString)
    ensures |r| == w
  {
    if w == 0 then [] else BigEndian(n / 256, w - 1) + [(n % 256) as Byte]
  }

  function Number(b: ByteString): nat {
    if b == [] then 0 else 256 * Number(b[..|b| - 1]) + b[|b| - 1] as nat
  }

  lemma {:induction false} NumberOfBigEndian(n: nat, w: nat)
    requires n < Pow256(w)
    ensures Number(BigEndian(n, w)) == n
  {
    if w > 0 {
      NumberOfBigEndian(n / 256, w - 1);
      assert BigEndian(n, w)[..w - 1] == BigEndian(n / 256, w - 1);
    }
  }

  lemma {:induction false} BigEndianOfNumber(b: ByteString)
    ensures Number(b) < Pow256(|b|) && BigEndian(Number(b), |b|) == b
  {
    if b != [] {
      BigEndianOfNumber(b[..|b| - 1]);
      assert b == b[..|b| - 1] + [b[|b| - 1]];
    }
  }

  /** Byte `i` of a big-endian number is the digit of its place, the highest first. */
  lemma {:induction false} BigEndianDigit(n: nat, w: nat, i: nat)
    requires i < w
    ensures Pow256(w - 1 - i) > 0 && BigEndian(n, w)[i] as int == n / Pow256(w - 1 - i) % 256
  {
    var p := Pow256(w - 1 - i);
    if i == w - 1 {
      assert p == 1 && n / p == n;
    } else {
      BigEndianDigit(n / 256, w - 1, i);
      var q := Pow256(w - 2 - i);
      assert BigEndian(n, w)[i] == BigEndian(n / 256, w - 1)[i];
      DivideTwice(n, q);
      assert p == 256 * q;
    }
  }

  lemma DivideTwice(n: nat, q: nat)
    requires q > 0
    ensures n / 256 / q == n / (256 * q)
  {
    var a := n / 256;
    var b := a / q;
    assert n == 256 * a + n % 256;
    assert a == q * b + a % q;
    QuotientIs(n, 256 * q, b, 256 * (a % q) + n % 256);
  }

  lemma QuotientIs(n: nat, d: nat, b: nat, r: nat)
    requires n == d * b + r && r < d
    ensures n / d == b
  {
    QuotientUnique(d, b, r, n / d, n % d);
  }

  lemma QuotientUnique(d: nat, b: nat, r: nat, c: nat, t: nat)
    requires d * b + r == d * c + t && r < d && t < d
    ensures b == c
  {
    if b < c {
      OneMultipleMore(d, b, c);
    } else if c < b {
      OneMultipleMore(d, c, b);
    }
  }

  lemma {:induction false} OneMultipleMore(d: nat, b: nat, c: nat)
    requires b < c
    ensures d * b + d <= d * c
  {
    NextMultiple(d, c - 1);
    if b < c - 1 {
      OneMultipleMore(d, b, c - 1);
    }
  }

  lemma NextMultiple(d: nat, c: nat)
    ensures d * (c + 1) == d * c + d
  {
  }

  lemma Widths()
    ensures Pow256(2) == 0x1_0000 && Pow256(4) == 0x1_0000_0000 && Pow256(8) == 0x1_0000_0000_0000_0000
  {
    assert Pow256(1) == 256 && Pow256(2) == 256 * Pow256(1) && Pow256(3) == 256 * Pow256(2);
    assert Pow256(4) == 256 * Pow256(3) && Pow256(5) == 256 * Pow256(4) && Pow256(6) == 256 * Pow256(5);
    assert Pow256(7) == 256 * Pow256(6) && Pow256(8) == 256 * Pow256(7);
  }

  /** The 64-bit pattern of a signed number, and back. */
  function Unsigned(x: int): nat
    requires -0x8000_0000_0000_0000 <= x < 0x8000_0000_0000_0000
  {
    if x < 0 then x + 0x1_0000_0000_0000_0000 else x
  }

  function Signed(n: nat): int {
    if n >= 0x8000_0000_0000_0000 then n - 0x1_0000_0000_0000_0000 else n
  }

  // ---------------------------------------------------------------------------------------
  // Records

  /** The bounds that both the writer and the reader put on a single record. */
  predicate Bounded(r: Record) {
    && r.database < 0x1_0000 && -1 <= r.expiry < 0x8000_0000_0000_0000
    && 1 <= |r.key| <= MAXIMUM_KEY && 1 <= |r.value| <= MAXIMUM_VALUE
  }

  function Header(r: Record): (h: ByteString)
    requires Bounded(r)
    ensures |h| == 22
  {
    BigEndian(r.database, 2) + BigEndian(Unsigned(r.expiry), 8) + BigEndian(|r.key|, 4) + BigEndian(|r.value|, 8)
  }

  function Encode(r: Record): ByteString
    requires Bounded(r)
  {
    [1] + Header(r) + r.key + r.value
  }

  /** One record off the front, without its tag; `None` when truncated or out of bounds. */
  function Decode(rest: ByteString): (o: Option<(Record, ByteString)>)
    ensures o.Some? ==> Bounded(o.value.0) && |o.value.1| < |rest|
  {
    if |rest| < 22 then None
    else
      var database := Number(rest[0..2]);
      var expiry := Signed(Number(rest[2..10]));
      var keyLength := Number(rest[10..14]);
      var valueLength := Signed(Number(rest[14..22]));
      if keyLength < 1 || keyLength > MAXIMUM_KEY || valueLength < 1 || valueLength > MAXIMUM_VALUE || expiry < -1 then None
      else if |rest| < 22 + keyLength + valueLength then None
      else
        Fields(rest);
        Some((Record(database, expiry, rest[22..22 + keyLength], rest[22 + keyLength..22 + keyLength + valueLength]),
              rest[22 + keyLength + valueLength..]))
  }

  lemma Fields(rest: ByteString)
    requires |rest| >= 22
    ensures Number(rest[0..2]) < 0x1_0000 && Number(rest[2..10]) < 0x1_0000_0000_0000_0000
    ensures Number(rest[10..14]) < 0x1_0000_0000 && Number(rest[14..22]) < 0x1_0000_0000_0000_0000
  {
    Widths();
    BigEndianOfNumber(rest[0..2]);
    BigEndianOfNumber(rest[2..10]);
    BigEndianOfNumber(rest[10..14]);
    BigEndianOfNumber(rest[14..22]);
  }

  lemma HeaderFields(r: Record, b: ByteString)
    requires Bounded(r) && |b| >= 22 && b[..22] == Header(r)
    ensures Number(b[0..2]) == r.database && Signed(Number(b[2..10])) == r.expiry
    ensures Number(b[10..14]) == |r.key| && Signed(Number(b[14..22])) == |r.value|
  {
    Widths();
    var h := b[..22];
    assert b[0..2] == h[0..2] == BigEndian(r.database, 2);
    assert b[2..10] == h[2..10] == BigEndian(Unsigned(r.expiry), 8);
    assert b[10..14] == h[10..14] == BigEndian(|r.key|, 4);
    assert b[14..22] == h[14..22] == BigEndian(|r.value|, 8);
    NumberOfBigEndian(r.database, 2);
    NumberOfBigEndian(Unsigned(r.expiry), 8);
    NumberOfBigEndian(|r.key|, 4);
    NumberOfBigEndian(|r.value|, 8);
  }

  /** Decoding an encoded record gives it back, whatever follows. */
  lemma DecodeEncode(r: Record, rest: ByteString)
    requires Bounded(r)
    ensures Encode(r)[0] == 1 && Decode((Encode(r) + rest)[1..]) == Some((r, rest))
  {
    var b := (Encode(r) + rest)[1..];
    assert b == Header(r) + r.key + r.value + rest;
    assert b[..22] == Header(r);
    HeaderFields(r, b);
    var k := 22 + |r.key|;
    assert b[22..k] == r.key && b[k..k + |r.value|] == r.value && b[k + |r.value|..] == rest;
  }

  lemma FourSlices(s: ByteString, p: nat, q: nat, r: nat)
    requires p <= q <= r <= |s|
    ensures s == s[..p] + s[p..q] + s[q..r] + s[r..]
  {
  }

  lemma Tagged(h: ByteString, k: ByteString, v: ByteString, t: ByteString)
    ensures [1] + (h + k + v + t) == [1] + h + k + v + t
  {
  }

  /** The header of a record with the decoded fields is what was decoded. */
  lemma HeaderDecoded(r: Record, h: ByteString)
    requires Bounded(r) && |h| == 22
    requires r.database == Number(h[..2]) && |r.key| == Number(h[10..14])
    requires Unsigned(r.expiry) == Number(h[2..10]) && |r.value| == Number(h[14..])
    ensures Header(r) == h
  {
    BigEndianOfNumber(h[..2]);
    BigEndianOfNumber(h[2..10]);
    BigEndianOfNumber(h[10..14]);
    BigEndianOfNumber(h[14..]);
    FourSlices(h, 2, 10, 14);
  }

  lemma UnsignedSigned(n: nat)
    requires n < 0x1_0000_0000_0000_0000
    ensures Unsigned(Signed(n)) == n
  {
  }

  /** What decodes is the encoding of what it decodes to. */
  lemma EncodeDecode(rest: ByteString)
    requires Decode(rest).Some?
    ensures [1] + rest == Encode(Decode(rest).value.0) + Decode(rest).value.1
  {
    var (r, tail) := Decode(rest).value;
    var h, k := rest[..22], 22 + |r.key|;
    DecodedFields(rest);
    HeaderDecoded(r, h);
    FourSlices(rest, 22, k, k + |r.value|);
    Tagged(h, r.key, r.value, tail);
  }

  lemma DecodedFields(rest: ByteString)
    requires Decode(rest).Some?
    ensures |rest| >= 22
    ensures var (r, tail), h := Decode(rest).value, rest[..22];
            && r.database == Number(h[..2]) && |r.key| == Number(h[10..14])
            && Unsigned(r.expiry) == Number(h[2..10]) && |r.value| == Number(h[14..])
            && var k := 22 + |r.key|;
               k + |r.value| <= |rest| && r.key == rest[22..k] && r.value == rest[k..k + |r.value|] && tail == rest[k + |r.value|..]
  {
    Fields(rest);
    var h := rest[..22];
    assert h[..2] == rest[0..2] && h[2..10] == rest[2..10] && h[10..14] == rest[10..14] && h[14..] == rest[14..22];
    UnsignedSigned(Number(rest[2..10]));
  }

  // ---------------------------------------------------------------------------------------
  // The hashed bytes

  function Hashed(r: Record): (h: ByteString)
    requires Bounded(r)
    ensures |h| >= 18
  {
    BigEndian(r.database, 2) + BigEndian(Unsigned(r.expiry), 8) + BigEndian(|r.key|, 4) + BigEndian(|r.value|, 4) + r.key + r.value
  }

  predicate AllBounded(records: seq<Record>) {
    forall i :: 0 <= i < |records| ==> Bounded(records[i])
  }

  function HashInput(records: seq<Record>): ByteString
    requires AllBounded(records)
  {
    if records == [] then [] else Hashed(records[0]) + HashInput(records[1..])
  }

  /** Six fields, one after the other, are found in their places. */
  lemma SixFields(d: ByteString, e: ByteString, k: ByteString, v: ByteString, key: ByteString, value: ByteString, b: ByteString)
    requires |d| == 2 && |e| == 8 && |k| == 4 && |v| == 4 && d + e + k + v + key + value <= b
    ensures |b| >= 18 + |key| + |value|
    ensures b[0..2] == d && b[2..10] == e && b[10..14] == k && b[14..18] == v
    ensures b[18..18 + |key|] == key && b[18 + |key|..18 + |key| + |value|] == value
  {
    var all := d + e + k + v + key + value;
    assert forall i :: 0 <= i < |all| ==> b[i] == all[i];
  }

  lemma HashedFields(r: Record, b: ByteString)
    requires Bounded(r) && Hashed(r) <= b
    ensures |b| >= 18 + |r.key| + |r.value|
    ensures Number(b[0..2]) == r.database && Signed(Number(b[2..10])) == r.expiry
    ensures Number(b[10..14]) == |r.key| && Number(b[14..18]) == |r.value|
    ensures b[18..18 + |r.key|] == r.key && b[18 + |r.key|..18 + |r.key| + |r.value|] == r.value
  {
    Widths();
    SixFields(BigEndian(r.database, 2), BigEndian(Unsigned(r.expiry), 8), BigEndian(|r.key|, 4), BigEndian(|r.value|, 4),
              r.key, r.value, b);
    NumberOfBigEndian(r.database, 2);
    NumberOfBigEndian(Unsigned(r.expiry), 8);
    NumberOfBigEndian(|r.key|, 4);
    NumberOfBigEndian(|r.value|, 4);
  }

  /** The hashed byte string determines the list of records. */
  lemma {:induction false} HashInputInjective(a: seq<Record>, b: seq<Record>)
    requires AllBounded(a) && AllBounded(b) && HashInput(a) == HashInput(b)
    ensures a == b
    decreases |a|
  {
    if a != [] && b != [] {
      var all := HashInput(a);
      HashedFields(a[0], all);
      HashedFields(b[0], all);
      assert a[0] == b[0];
      assert all[|Hashed(a[0])|..] == HashInput(a[1..]) && all[|Hashed(b[0])|..] == HashInput(b[1..]);
      HashInputInjective(a[1..], b[1..]);
      assert a == [a[0]] + a[1..] && b == [b[0]] + b[1..];
    }
  }
}
