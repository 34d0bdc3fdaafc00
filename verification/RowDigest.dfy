/** The streaming digest of a table's rows: independent of how the bytes arrive and of the order of
    the rows. */
module RowDigest {
  import opened Wrappers
  import opened Bytes

  const NEWLINE: Byte := 10
  const RETURN: Byte := 13
  const MAXIMUM_ROW := 64 * 1024 * 1024

  type Digest = d: seq<bv8> | |d| == 32 witness seq(32, _ => 0)

  type Hash = ByteString -> Digest

  /** Bytewise xor and four wrapping 64-bit sums of row digests, and the number of rows. */
  datatype Tally = Tally(xor: Digest, sum: seq<Word64>, rows: nat)

  datatype State = State(pending: ByteString, tally: Tally)

  const EMPTY := Tally(seq(32, _ => 0), [0, 0, 0, 0], 0)

  newtype Word64 = x: int | 0 <= x < 0x1_0000_0000_0000_0000

  /** Addition of 64-bit words, with wrap-around. */
  function Plus(a: Word64, b: Word64): Word64 {
    var sum := a as int + b as int;
    (if sum >= 0x1_0000_0000_0000_0000 then sum - 0x1_0000_0000_0000_0000 else sum) as Word64
  }

  function Value(b: bv8): (v: nat)
    ensures v < 256
  {
    b as nat
  }

  /** The big-endian 64-bit word number `i` of a digest. */
  function Word(d: Digest, i: nat): Word64
    requires i < 4
  {
    var k := 8 * i;
    (0x100_0000_0000_0000 * Value(d[k]) + 0x1_0000_0000_0000 * Value(d[k + 1])
     + 0x100_0000_0000 * Value(d[k + 2]) + 0x1_0000_0000 * Value(d[k + 3])
     + 0x100_0000 * Value(d[k + 4]) + 0x1_0000 * Value(d[k + 5])
     + 0x100 * Value(d[k + 6]) + Value(d[k + 7])) as Word64
  }

  predicate Proper(t: Tally) {
    |t.sum| == 4
  }

  function Xored(x: Digest, d: Digest): (r: Digest)
    ensures forall i :: 0 <= i < 32 ==> r[i] == x[i] ^ d[i]
  {
    seq(32, i requires 0 <= i < 32 => x[i] ^ d[i])
  }

  function Summed(x: seq<Word64>, d: Digest): (r: seq<Word64>)
    requires |x| == 4
    ensures |r| == 4 && forall i :: 0 <= i < 4 ==> r[i] == Plus(x[i], Word(d, i))
  {
    seq(4, i requires 0 <= i < 4 => Plus(x[i], Word(d, i)))
  }

  function Added(t: Tally, d: Digest): (r: Tally)
    requires Proper(t)
    ensures Proper(r)
  {
    Tally(Xored(t.xor, d), Summed(t.sum, d), t.rows + 1)
  }

  function Trimmed(row: ByteString): ByteString {
    if row != [] && row[|row| - 1] == RETURN then row[..|row| - 1] else row
  }

  function WithRow(t: Tally, row: ByteString, sha: Hash): (r: Tally)
    requires Proper(t)
    ensures Proper(r)
  {
    Added(t, sha(Trimmed(row)))
  }

  /** One byte of the stream; `None` when the row grows past the limit. */
  function Take(s: State, c: Byte, sha: Hash): (r: Option<State>)
    requires Proper(s.tally)
    ensures r.Some? ==> Proper(r.value.tally)
  {
    if c == NEWLINE then Some(State([], WithRow(s.tally, s.pending, sha)))
    else if |s.pending| < MAXIMUM_ROW then Some(State(s.pending + [c], s.tally))
    else None
  }

  function Feed(s: State, bytes: ByteString, sha: Hash): (r: Option<State>)
    requires Proper(s.tally)
    ensures r.Some? ==> Proper(r.value.tally)
    decreases |bytes|
  {
    if bytes == [] then Some(s)
    else
      var next := Take(s, bytes[0], sha);
      if next.None? then None else Feed(next.value, bytes[1..], sha)
  }

  /** Feeding in two parts is feeding the whole. */
  lemma {:induction false} FeedSplits(s: State, a: ByteString, b: ByteString, sha: Hash)
    requires Proper(s.tally)
    ensures var first := Feed(s, a, sha);
            Feed(s, a + b, sha) == if first.None? then None else Feed(first.value, b, sha)
    decreases |a|
  {
    if a == [] {
      assert a + b == b;
    } else {
      assert (a + b)[1..] == a[1..] + b;
      var next := Take(s, a[0], sha);
      if next.Some? {
        FeedSplits(next.value, a[1..], b, sha);
      }
    }
  }

  lemma {:induction false} FeedSegment(s: State, segment: ByteString, sha: Hash)
    requires Proper(s.tally) && NEWLINE !in segment && |s.pending| <= MAXIMUM_ROW
    ensures Feed(s, segment, sha) ==
      if |s.pending| + |segment| <= MAXIMUM_ROW then Some(State(s.pending + segment, s.tally)) else None
    decreases |segment|
  {
    if segment == [] {
      assert s.pending + segment == s.pending;
    } else if |s.pending| < MAXIMUM_ROW {
      FeedSegment(State(s.pending + [segment[0]], s.tally), segment[1..], sha);
      assert s.pending + [segment[0]] + segment[1..] == s.pending + segment;
    }
  }

  // ---------------------------------------------------------------------------------------
  // What a row contributes

  /** The number that digits to the base 256 denote, the first being the highest. */
  function Number(v: seq<int>): int {
    if v == [] then 0 else 256 * Number(v[..|v| - 1]) + v[|v| - 1]
  }

  /** The bytes of word number `i` of a digest. */
  function WordBytes(d: Digest, i: nat): (v: seq<int>)
    requires i < 4
    ensures |v| == 8 && forall k :: 0 <= k < 8 ==> v[k] == Value(d[8 * i + k])
  {
    seq(8, k requires 0 <= k < 8 => Value(d[8 * i + k]))
  }

  /** A word of a digest is the big-endian number of its bytes. */
  lemma WordIsNumber(d: Digest, i: nat)
    requires i < 4
    ensures Word(d, i) as int == Number(WordBytes(d, i))
  {
    NumberOf(WordBytes(d, i));
  }

  lemma NumberOf(v: seq<int>)
    requires |v| == 8
    ensures Number(v) == 0x100_0000_0000_0000 * v[0] + 0x1_0000_0000_0000 * v[1] + 0x100_0000_0000 * v[2] + 0x1_0000_0000 * v[3]
                         + 0x100_0000 * v[4] + 0x1_0000 * v[5] + 0x100 * v[6] + v[7]
  {
    FourMore(v, 0);
    FourMore(v, 4);
    assert v[..8] == v;
  }

  lemma FourMore(v: seq<int>, n: nat)
    requires n + 4 <= |v|
    ensures Number(v[..n + 4]) ==
      0x1_0000_0000 * Number(v[..n]) + 0x100_0000 * v[n] + 0x1_0000 * v[n + 1] + 0x100 * v[n + 2] + v[n + 3]
  {
    OneMore(v, n);
    OneMore(v, n + 1);
    OneMore(v, n + 2);
    OneMore(v, n + 3);
  }

  lemma OneMore(v: seq<int>, n: nat)
    requires n < |v|
    ensures Number(v[..n + 1]) == 256 * Number(v[..n]) + v[n]
  {
    assert v[..n + 1][..n] == v[..n];
  }

  /** The row as it is hashed: without one carriage return at its end. */
  predicate IsContent(row: ByteString, content: ByteString) {
    row == content + [13] || (row == content && (row == [] || row[|row| - 1] != 13))
  }

  lemma TrimmedIsContent(row: ByteString, content: ByteString)
    requires IsContent(row, content)
    ensures Trimmed(row) == content
  {
  }

  /** One row alone: the digest of its content, that digest's four words, and one row. */
  lemma TallyOfOneRow(row: ByteString, content: ByteString, sha: Hash)
    requires IsContent(row, content)
    ensures var t, d := WithRow(EMPTY, row, sha), sha(content);
            t.xor == d && t.sum == [Word(d, 0), Word(d, 1), Word(d, 2), Word(d, 3)] && t.rows == 1
  {
    TrimmedIsContent(row, content);
    AddedToNothing(sha(content));
  }

  lemma AddedToNothing(d: Digest)
    ensures Added(EMPTY, d) == Tally(d, [Word(d, 0), Word(d, 1), Word(d, 2), Word(d, 3)], 1)
  {
    XoredWithNothing(d);
    SummedWithNothing(d);
  }

  lemma XoredWithNothing(d: Digest)
    ensures Xored(EMPTY.xor, d) == d
  {
    forall i | 0 <= i < 32 ensures Xored(EMPTY.xor, d)[i] == d[i] {
      XorZero(d[i]);
    }
  }

  lemma SummedWithNothing(d: Digest)
    ensures Summed(EMPTY.sum, d) == [Word(d, 0), Word(d, 1), Word(d, 2), Word(d, 3)]
  {
    forall i | 0 <= i < 4 ensures Summed(EMPTY.sum, d)[i] == Word(d, i) {
      PlusZero(Word(d, i));
    }
  }

  lemma PlusZero(w: Word64)
    ensures Plus(0, w) == w
  {
  }

  lemma XorZero(x: bv8)
    ensures 0 ^ x == x
  {
  }

  predicate AreContents(rows: seq<ByteString>, contents: seq<ByteString>) {
    |rows| == |contents| && forall k :: 0 <= k < |rows| ==> IsContent(rows[k], contents[k])
  }

  /** Word number `i` of the digest of each content. */
  function WordsOf(contents: seq<ByteString>, sha: Hash, i: nat): (r: seq<Word64>)
    requires i < 4
  {
    if contents == [] then [] else [Word(sha(contents[0]), i)] + WordsOf(contents[1..], sha, i)
  }

  function PlusAll(x: Word64, words: seq<Word64>): Word64
    decreases |words|
  {
    if words == [] then x else PlusAll(Plus(x, words[0]), words[1..])
  }

  function Total(words: seq<Word64>): int {
    if words == [] then 0 else words[0] as int + Total(words[1..])
  }

  /** Adding words one by one, with wrap-around, is adding them all modulo 2^64. */
  lemma {:induction false} PlusAllTotal(x: Word64, words: seq<Word64>)
    ensures PlusAll(x, words) as int == (x as int + Total(words)) % 0x1_0000_0000_0000_0000
    decreases |words|
  {
    if words != [] {
      PlusAllTotal(Plus(x, words[0]), words[1..]);
      WrapsOnce(x, words[0], Total(words[1..]));
    }
  }

  lemma WrapsOnce(a: Word64, b: Word64, more: int)
    ensures (Plus(a, b) as int + more) % 0x1_0000_0000_0000_0000 == (a as int + (b as int + more)) % 0x1_0000_0000_0000_0000
  {
  }

  lemma RowAdds(t: Tally, row: ByteString, content: ByteString, sha: Hash, i: nat)
    requires Proper(t) && IsContent(row, content) && i < 4
    ensures var u := WithRow(t, row, sha); Proper(u) && u.rows == t.rows + 1 && u.sum[i] == Plus(t.sum[i], Word(sha(content), i))
  {
    TrimmedIsContent(row, content);
  }

  /** Many rows: their number, and each sum the wrapping sum of the words of their digests. */
  lemma {:induction false} TallyOfRows(t: Tally, rows: seq<ByteString>, contents: seq<ByteString>, sha: Hash, i: nat)
    requires Proper(t) && AreContents(rows, contents) && i < 4
    ensures Fold(t, rows, sha).rows == t.rows + |rows| && Fold(t, rows, sha).sum[i] == PlusAll(t.sum[i], WordsOf(contents, sha, i))
    decreases |rows|
  {
    if rows != [] {
      RowAdds(t, rows[0], contents[0], sha, i);
      TallyOfRows(WithRow(t, rows[0], sha), rows[1..], contents[1..], sha, i);
      var words := WordsOf(contents, sha, i);
      assert words[0] == Word(sha(contents[0]), i) && words[1..] == WordsOf(contents[1..], sha, i);
    }
  }

  // ---------------------------------------------------------------------------------------
  // Row order

  lemma AddedCommutes(t: Tally, a: Digest, b: Digest)
    requires Proper(t)
    ensures Added(Added(t, a), b) == Added(Added(t, b), a)
  {
    XoredCommutes(t.xor, a, b);
    SummedCommutes(t.sum, a, b);
  }

  lemma XoredCommutes(x: Digest, a: Digest, b: Digest)
    ensures Xored(Xored(x, a), b) == Xored(Xored(x, b), a)
  {
    forall i | 0 <= i < 32 ensures Xored(Xored(x, a), b)[i] == Xored(Xored(x, b), a)[i] {
      XorCommutes(x[i], a[i], b[i]);
    }
  }

  lemma SummedCommutes(x: seq<Word64>, a: Digest, b: Digest)
    requires |x| == 4
    ensures Summed(Summed(x, a), b) == Summed(Summed(x, b), a)
  {
    forall i | 0 <= i < 4 ensures Summed(Summed(x, a), b)[i] == Summed(Summed(x, b), a)[i] {
      SumCommutes(x[i], Word(a, i), Word(b, i));
    }
  }

  lemma XorCommutes(x: bv8, a: bv8, b: bv8)
    ensures (x ^ a) ^ b == (x ^ b) ^ a
  {
  }

  lemma SumCommutes(x: Word64, a: Word64, b: Word64)
    ensures Plus(Plus(x, a), b) == Plus(Plus(x, b), a)
  {
  }

  function Fold(t: Tally, rows: seq<ByteString>, sha: Hash): (r: Tally)
    requires Proper(t)
    ensures Proper(r)
    decreases |rows|
  {
    if rows == [] then t else Fold(WithRow(t, rows[0], sha), rows[1..], sha)
  }

  lemma {:induction false} RowMovesToFront(t: Tally, before: seq<ByteString>, row: ByteString, after: seq<ByteString>, sha: Hash)
    requires Proper(t)
    ensures Fold(t, before + [row] + after, sha) == Fold(WithRow(t, row, sha), before + after, sha)
    decreases |before|
  {
    var all := before + [row] + after;
    if before == [] {
      assert all[0] == row && all[1..] == after && before + after == after;
    } else {
      var first := before[0];
      assert all[0] == first && all[1..] == before[1..] + [row] + after;
      assert (before + after)[0] == first && (before + after)[1..] == before[1..] + after;
      RowMovesToFront(WithRow(t, first, sha), before[1..], row, after, sha);
      AddedCommutes(t, sha(Trimmed(first)), sha(Trimmed(row)));
    }
  }

  lemma {:induction false} OrderIrrelevant(t: Tally, rows: seq<ByteString>, other: seq<ByteString>, sha: Hash)
    requires Proper(t) && multiset(rows) == multiset(other)
    ensures Fold(t, rows, sha) == Fold(t, other, sha)
    decreases |rows|
  {
    if rows == [] {
      assert |multiset(other)| == |other|;
    } else {
      var row := rows[0];
      assert row in multiset(rows);
      var k :| 0 <= k < |other| && other[k] == row;
      var before, after := other[..k], other[k + 1..];
      assert other == before + [row] + after;
      RowMovesToFront(t, before, row, after, sha);
      assert rows == [row] + rows[1..];
      assert multiset(rows) == multiset{row} + multiset(rows[1..]);
      assert multiset(other) == multiset(before) + multiset{row} + multiset(after);
      assert multiset(before + after) == multiset(before) + multiset(after);
      assert multiset(rows[1..]) == multiset(rows) - multiset{row};
      assert multiset(rows[1..]) == multiset(before + after);
      OrderIrrelevant(WithRow(t, row, sha), rows[1..], before + after, sha);
    }
  }

  function Text(rows: seq<ByteString>): ByteString {
    if rows == [] then [] else rows[0] + [NEWLINE] + Text(rows[1..])
  }

  predicate Lines(rows: seq<ByteString>) {
    forall i :: 0 <= i < |rows| ==> NEWLINE !in rows[i]
  }

  predicate Short(rows: seq<ByteString>) {
    forall i :: 0 <= i < |rows| ==> |rows[i]| <= MAXIMUM_ROW
  }

  /** A text of newline-terminated rows is digested row by row; it fails exactly when some row is
      too long. */
  lemma {:induction false} TextIsFolded(t: Tally, rows: seq<ByteString>, sha: Hash)
    requires Proper(t) && Lines(rows)
    ensures Feed(State([], t), Text(rows), sha) == if Short(rows) then Some(State([], Fold(t, rows, sha))) else None
    decreases |rows|
  {
    if rows != [] {
      var row, rest := rows[0], rows[1..];
      var start := State([], t);
      FeedSegment(start, row, sha);
      FeedSplits(start, row, [NEWLINE] + Text(rest), sha);
      assert row + ([NEWLINE] + Text(rest)) == Text(rows);
      if |row| <= MAXIMUM_ROW {
        assert [] + row == row;
        assert ([NEWLINE] + Text(rest))[1..] == Text(rest);
        TextIsFolded(WithRow(t, row, sha), rest, sha);
        assert Short(rows) <==> Short(rest) by {
          assert forall i :: 0 < i < |rows| ==> rows[i] == rest[i - 1];
          assert forall i :: 0 <= i < |rest| ==> rest[i] == rows[i + 1];
        }
      }
    }
  }

  /** Permuting the rows of a table changes neither the digest nor whether it can be computed. */
  lemma PermutedRowsSameDigest(rows: seq<ByteString>, other: seq<ByteString>, sha: Hash)
    requires Lines(rows) && multiset(rows) == multiset(other)
    ensures Lines(other)
    ensures Feed(State([], EMPTY), Text(rows), sha) == Feed(State([], EMPTY), Text(other), sha)
  {
    forall i | 0 <= i < |other| ensures other[i] in rows {
      assert other[i] in multiset(other) && other[i] in multiset(rows);
    }
    forall i | 0 <= i < |rows| ensures rows[i] in other {
      assert rows[i] in multiset(rows) && rows[i] in multiset(other);
    }
    TextIsFolded(EMPTY, rows, sha);
    TextIsFolded(EMPTY, other, sha);
    OrderIrrelevant(EMPTY, rows, other, sha);
  }

  // ---------------------------------------------------------------------------------------
  // The writer

  function Flat(parts: seq<ByteString>): ByteString {
    if parts == [] then [] else Flat(parts[..|parts| - 1]) + parts[|parts| - 1]
  }

  method IndexByte(value: ByteString, c: Byte) returns (k: int)
    ensures -1 <= k < |value|
    ensures k < 0 <==> c !in value
    ensures k >= 0 ==> value[k] == c && c !in value[..k]
  {
    for i := 0 to |value|
      invariant c !in value[..i]
    {
      if value[i] == c {
        return i;
      }
      assert value[..i + 1] == value[..i] + [value[i]];
    }
    assert value[..|value|] == value;
    k := -1;
  }

  class RowDigestWriter {
    const sha: Hash
    var pending: ByteString
    var xor: Digest
    var sum: seq<Word64>
    var rows: nat

    function Now(): State
      reads this
    {
      State(pending, Tally(xor, sum, rows))
    }

    ghost predicate Valid()
      reads this
    {
      |sum| == 4 && |pending| <= MAXIMUM_ROW
    }

    constructor (sha: Hash)
      ensures Valid() && this.sha == sha && Now() == State([], EMPTY)
    {
      this.sha, pending, xor, sum, rows := sha, [], EMPTY.xor, EMPTY.sum, 0;
    }

    method AddRow(row: ByteString)
      requires |sum| == 4
      modifies `xor, `sum, `rows
      ensures |sum| == 4 && Tally(xor, sum, rows) == WithRow(old(Now()).tally, row, sha)
    {
      var digest := sha(Trimmed(row));
      XorInto(digest);
      SumInto(digest);
      rows := rows + 1;
    }

    method XorInto(digest: Digest)
      modifies `xor
      ensures xor == Xored(old(xor), digest)
    {
      for i := 0 to 32
        invariant |xor| == 32
        invariant forall k :: 0 <= k < i ==> xor[k] == Xored(old(xor), digest)[k]
        invariant forall k :: i <= k < 32 ==> xor[k] == old(xor)[k]
      {
        xor := xor[i := xor[i] ^ digest[i]];
      }
    }

    method SumInto(digest: Digest)
      requires |sum| == 4
      modifies `sum
      ensures sum == Summed(old(sum), digest)
    {
      for i := 0 to 4
        invariant |sum| == 4
        invariant forall k :: 0 <= k < i ==> sum[k] == Summed(old(sum), digest)[k]
        invariant forall k :: i <= k < 4 ==> sum[k] == old(sum)[k]
      {
        sum := sum[i := Plus(sum[i], Word(digest, i))];
      }
    }

    /** An error exactly when a row of the stream passes the limit. */
    method Write(value: ByteString) returns (ok: bool)
      requires Valid()
      modifies this
      ensures ok <==> Feed(old(Now()), value, sha).Some?
      ensures ok ==> Valid() && Now() == Feed(old(Now()), value, sha).value
    {
      var rest := value;
      while rest != []
        invariant Valid()
        invariant Feed(Now(), rest, sha) == Feed(old(Now()), value, sha)
        decreases |rest|
      {
        var newline := IndexByte(rest, NEWLINE);
        ghost var before := Now();
        var segment := if newline < 0 then rest else rest[..newline];
        FeedSegment(before, segment, sha);
        FeedSplits(before, segment, rest[|segment|..], sha);
        assert segment + rest[|segment|..] == rest;
        pending := pending + segment;
        if |pending| > MAXIMUM_ROW {
          return false;
        }
        if newline < 0 {
          return true;
        }
        AddRow(pending);
        pending := [];
        rest := rest[newline + 1..];
      }
      ok := true;
    }

    /** Any split of the same bytes into writes gives the same outcome and the same state. */
    method WriteAll(parts: seq<ByteString>) returns (ok: bool)
      requires Valid()
      modifies this
      ensures ok <==> Feed(old(Now()), Flat(parts), sha).Some?
      ensures ok ==> Valid() && Now() == Feed(old(Now()), Flat(parts), sha).value
    {
      for i := 0 to |parts|
        invariant Valid()
        invariant Feed(old(Now()), Flat(parts[..i]), sha) == Some(Now())
      {
        assert parts[..i + 1][..i] == parts[..i];
        FeedSplits(old(Now()), Flat(parts[..i]), parts[i], sha);
        var done := Write(parts[i]);
        if !done {
          FlatPrefix(parts, i + 1);
          FeedSplits(old(Now()), Flat(parts[..i + 1]), Rest(parts, i + 1), sha);
          return false;
        }
      }
      assert parts[..|parts|] == parts;
      ok := true;
    }

    /** A last row without a newline counts like any other. */
    method Finish() returns (tally: Tally)
      requires Valid()
      modifies this
      ensures tally == if old(pending) == [] then old(Now()).tally else WithRow(old(Now()).tally, old(pending), sha)
      ensures Now() == State([], tally)
    {
      if |pending| > 0 {
        AddRow(pending);
        pending := [];
      }
      tally := Tally(xor, sum, rows);
    }
  }

  function Rest(parts: seq<ByteString>, i: nat): ByteString
    requires i <= |parts|
    decreases |parts|
  {
    if i == |parts| then [] else Rest(parts[..|parts| - 1], i) + parts[|parts| - 1]
  }

  lemma {:induction false} FlatPrefix(parts: seq<ByteString>, i: nat)
    requires i <= |parts|
    ensures Flat(parts) == Flat(parts[..i]) + Rest(parts, i)
  {
    if i == |parts| {
      assert parts[..i] == parts;
    } else {
      var n := |parts| - 1;
      var front, middle, last := Flat(parts[..i]), Rest(parts[..n], i), parts[n];
      FlatPrefix(parts[..n], i);
      assert parts[..n][..i] == parts[..i];
      assert (front + middle) + last == front + (middle + last);
    }
  }
}
