/** Validation of a transferred file manifest, and the look-up of an entry in it. */
module Manifest {
  import opened Wrappers
  import opened Bytes
  import opened Int64

  const SLASH: Byte := 47
  const BACKSLASH: Byte := 92
  const MAXIMUM_ENTRIES := 250_000
  const MAXIMUM_BYTES := 500 * 1024 * 1024 * 1024

  datatype Kind = Directory | File | Unsupported

  datatype Sha = NoSha | Sha256(digest: string) | Malformed

  datatype Entry = Entry(relative: ByteString, kind: Kind, size: int, sha: Sha, mode: nat, modified: int)

  datatype Summary = Summary(files: nat, directories: nat, total: int)

  // ---------------------------------------------------------------------------------------
  // Paths

  /** The position of the last slash, or -1. */
  function LastSlash(p: ByteString): (k: int)
    ensures -1 <= k < |p|
    ensures k >= 0 ==> p[k] == SLASH
    ensures forall j :: k < j < |p| ==> p[j] != SLASH
  {
    if p == [] then -1
    else if p[|p| - 1] == SLASH then |p| - 1
    else LastSlash(p[..|p| - 1])
  }

  predicate Below(q: ByteString, p: ByteString) {
    |p| < |q| && q[|p|] == SLASH && q[..|p|] == p
  }

  lemma BelowComesLater(q: ByteString, p: ByteString)
    requires Below(q, p)
    ensures Less(p, q)
  {
    PrefixLess(p, q[|p|..]);
    assert q == p + q[|p|..];
  }

  // ---------------------------------------------------------------------------------------
  // What an acceptable manifest is

  /** `clean` says of a path that cleaning leaves it as it is, relative and inside its root. */
  predicate EntryOk(e: Entry, clean: ByteString -> bool) {
    && e.relative != [] && BACKSLASH !in e.relative && clean(e.relative) && e.mode <= 0x1ff && e.modified >= 0
    && match e.kind
       case Directory => e.size == 0 && e.sha == NoSha
       case File => e.size >= 0 && e.sha.Sha256?
       case Unsupported => false
  }

  function Paths(entries: seq<Entry>): (r: seq<ByteString>)
    ensures |r| == |entries| && forall i :: 0 <= i < |r| ==> r[i] == entries[i].relative
  {
    seq(|entries|, i requires 0 <= i < |entries| => entries[i].relative)
  }

  /** No entry lies below a file, wherever the two stand in the list. */
  predicate NothingBelowFiles(entries: seq<Entry>) {
    forall i, j :: 0 <= i < |entries| && 0 <= j < |entries| && entries[i].kind == File
      ==> !Below(entries[j].relative, entries[i].relative)
  }

  function WrappedTotal(entries: seq<Entry>): int {
    if entries == [] then 0
    else
      var e := entries[|entries| - 1];
      var before := WrappedTotal(entries[..|entries| - 1]);
      if e.kind == File then Wrap64(before + e.size) else before
  }

  function ExactTotal(entries: seq<Entry>): int {
    if entries == [] then 0
    else
      var e := entries[|entries| - 1];
      ExactTotal(entries[..|entries| - 1]) + (if e.kind == File then e.size else 0)
  }

  function Count(entries: seq<Entry>, kind: Kind): nat {
    if entries == [] then 0
    else Count(entries[..|entries| - 1], kind) + (if entries[|entries| - 1].kind == kind then 1 else 0)
  }

  /** The places of the entries of one kind. */
  function PlacesOf(entries: seq<Entry>, kind: Kind): set<int> {
    set i | 0 <= i < |entries| && entries[i].kind == kind
  }

  lemma {:induction false} CountIsPlaces(entries: seq<Entry>, kind: Kind)
    ensures Count(entries, kind) == |PlacesOf(entries, kind)|
  {
    if entries != [] {
      var n := |entries| - 1;
      CountIsPlaces(entries[..n], kind);
      PlacesOneMore(entries[..n], entries[n], kind);
      assert entries == entries[..n] + [entries[n]];
    }
  }

  lemma PlacesOneMore(entries: seq<Entry>, e: Entry, kind: Kind)
    ensures |PlacesOf(entries + [e], kind)| == |PlacesOf(entries, kind)| + (if e.kind == kind then 1 else 0)
  {
    var more := entries + [e];
    assert forall i :: 0 <= i < |entries| ==> more[i] == entries[i];
    assert PlacesOf(more, kind) == PlacesOf(entries, kind) + (if e.kind == kind then {|entries|} else {});
  }

  function Limit(maximumBytes: int): int {
    if maximumBytes < MAXIMUM_BYTES then maximumBytes else MAXIMUM_BYTES
  }

  predicate TotalsBounded(entries: seq<Entry>, maximumBytes: int) {
    forall k :: 0 <= k < |entries| && entries[k].kind == File ==> WrappedTotal(entries[..k + 1]) <= Limit(maximumBytes)
  }

  predicate Acceptable(entries: seq<Entry>, maximumBytes: int, clean: ByteString -> bool) {
    && |entries| <= MAXIMUM_ENTRIES
    && (forall i :: 0 <= i < |entries| ==> EntryOk(entries[i], clean))
    && Ascending(Paths(entries))
    && NothingBelowFiles(entries)
    && TotalsBounded(entries, maximumBytes)
  }

  /** Checking a new last entry against earlier files is checking it against all: whatever lies
      below it would sort after it. */
  lemma EarlierFilesSuffice(entries: seq<Entry>, e: Entry)
    requires NothingBelowFiles(entries) && Ascending(Paths(entries + [e]))
    requires forall i :: 0 <= i < |entries| && entries[i].kind == File ==> !Below(e.relative, entries[i].relative)
    ensures NothingBelowFiles(entries + [e])
  {
    var all := entries + [e];
    forall i, j | 0 <= i < |all| && 0 <= j < |all| && all[i].kind == File
      ensures !Below(all[j].relative, all[i].relative)
    {
      if Below(all[j].relative, all[i].relative) {
        BelowComesLater(all[j].relative, all[i].relative);
        if j < i {
          LessAsymmetric(Paths(all)[j], Paths(all)[i]);
        }
      }
    }
  }

  // ---------------------------------------------------------------------------------------
  // The checks as the code makes them

  /** Walks up the parents of a clean path and looks each one up among the files seen so far. */
  method PlacedBelowFile(p: ByteString, kinds: map<ByteString, Kind>) returns (r: bool)
    ensures r <==> exists k :: 0 <= k < |p| && p[k] == SLASH && p[..k] in kinds && kinds[p[..k]] == File
  {
    var k := LastSlash(p);
    while k >= 0
      invariant -1 <= k < |p| && (k >= 0 ==> p[k] == SLASH)
      invariant forall j :: k < j < |p| && p[j] == SLASH ==> !(p[..j] in kinds && kinds[p[..j]] == File)
    {
      if p[..k] in kinds && kinds[p[..k]] == File {
        return true;
      }
      var parent := p[..k];
      k := LastSlash(parent);
      assert forall j :: k < j < |parent| ==> p[j] == parent[j];
    }
    r := false;
  }

  predicate KindsOf(kinds: map<ByteString, Kind>, entries: seq<Entry>) {
    && (forall i :: 0 <= i < |entries| ==> entries[i].relative in kinds && kinds[entries[i].relative] == entries[i].kind)
    && (forall p :: p in kinds ==> exists i :: 0 <= i < |entries| && entries[i].relative == p)
  }

  lemma LookupMeansBelow(entries: seq<Entry>, kinds: map<ByteString, Kind>, p: ByteString)
    requires KindsOf(kinds, entries)
    ensures (exists k :: 0 <= k < |p| && p[k] == SLASH && p[..k] in kinds && kinds[p[..k]] == File)
       <==> (exists i :: 0 <= i < |entries| && entries[i].kind == File && Below(p, entries[i].relative))
  {
    if k :| 0 <= k < |p| && p[k] == SLASH && p[..k] in kinds && kinds[p[..k]] == File {
      var i :| 0 <= i < |entries| && entries[i].relative == p[..k];
      assert Below(p, entries[i].relative);
    }
    if i :| 0 <= i < |entries| && entries[i].kind == File && Below(p, entries[i].relative) {
      var k := |entries[i].relative|;
      assert p[k] == SLASH && p[..k] in kinds;
    }
  }

  /** What is asked of an entry, given the ones accepted before it. */
  predicate Fits(done: seq<Entry>, e: Entry, maximumBytes: int, clean: ByteString -> bool) {
    && Less(if done == [] then [] else done[|done| - 1].relative, e.relative)
    && EntryOk(e, clean)
    && !(exists i :: 0 <= i < |done| && done[i].kind == File && Below(e.relative, done[i].relative))
    && (e.kind == File ==> Wrap64(WrappedTotal(done) + e.size) <= Limit(maximumBytes))
  }

  /** The running values of the loop. */
  datatype Progress = Progress(previous: ByteString, kinds: map<ByteString, Kind>, files: nat, directories: nat, total: int)

  function Advanced(acc: Progress, e: Entry): Progress {
    Progress(e.relative, acc.kinds[e.relative := e.kind],
      acc.files + (if e.kind == File then 1 else 0), acc.directories + (if e.kind == Directory then 1 else 0),
      if e.kind == File then Wrap64(acc.total + e.size) else acc.total)
  }

  predicate Tracks(acc: Progress, done: seq<Entry>) {
    && KindsOf(acc.kinds, done)
    && acc.previous == (if done == [] then [] else done[|done| - 1].relative)
    && Tallies(acc, done)
  }

  predicate Tallies(acc: Progress, done: seq<Entry>) {
    acc.files == Count(done, File) && acc.directories == Count(done, Directory) && acc.total == WrappedTotal(done)
  }

  /** One entry of the loop. */
  method CheckEntry(ghost done: seq<Entry>, e: Entry, acc: Progress, maximumBytes: int, clean: ByteString -> bool)
    returns (ok: bool, acc': Progress)
    requires Tracks(acc, done)
    ensures ok <==> Fits(done, e, maximumBytes, clean)
    ensures acc' == Advanced(acc, e)
  {
    var below := PlacedBelowFile(e.relative, acc.kinds);
    LookupMeansBelow(done, acc.kinds, e.relative);
    var total := if e.kind == File then Wrap64(acc.total + e.size) else acc.total;
    ok := Less(acc.previous, e.relative) && EntryOk(e, clean) && !below
          && !(e.kind == File && (total > maximumBytes || total > MAXIMUM_BYTES));
    acc' := Advanced(acc, e);
  }

  lemma TracksOn(acc: Progress, acc': Progress, done: seq<Entry>, e: Entry)
    requires Tracks(acc, done) && Ascending(Paths(done + [e]))
    requires acc' == Advanced(acc, e)
    ensures Tracks(acc', done + [e])
  {
    KindsExtend(done, e, acc.kinds);
    TalliesOn(acc, acc', done, e);
    assert (done + [e])[|done|] == e;
  }

  lemma TalliesOn(acc: Progress, acc': Progress, done: seq<Entry>, e: Entry)
    requires Tallies(acc, done) && acc' == Advanced(acc, e)
    ensures Tallies(acc', done + [e])
  {
    CountsExtend(done, e);
  }

  lemma CountsExtend(done: seq<Entry>, e: Entry)
    ensures Count(done + [e], File) == Count(done, File) + (if e.kind == File then 1 else 0)
    ensures Count(done + [e], Directory) == Count(done, Directory) + (if e.kind == Directory then 1 else 0)
    ensures WrappedTotal(done + [e]) == if e.kind == File then Wrap64(WrappedTotal(done) + e.size) else WrappedTotal(done)
  {
    assert (done + [e])[..|done|] == done;
  }

  method CheckNext(entries: seq<Entry>, n: nat, acc: Progress, maximumBytes: int, clean: ByteString -> bool)
    returns (ok: bool, acc': Progress)
    requires n < |entries| <= MAXIMUM_ENTRIES && Acceptable(entries[..n], maximumBytes, clean) && Tracks(acc, entries[..n])
    ensures ok ==> Acceptable(entries[..n + 1], maximumBytes, clean) && Tracks(acc', entries[..n + 1])
    ensures !ok ==> !Acceptable(entries, maximumBytes, clean)
  {
    ok, acc' := CheckEntry(entries[..n], entries[n], acc, maximumBytes, clean);
    if ok {
      assert entries[..n + 1] == entries[..n] + [entries[n]];
      AcceptedEntry(entries[..n], entries[n], maximumBytes, clean);
      TracksOn(acc, acc', entries[..n], entries[n]);
    } else {
      RejectedEntry(entries, maximumBytes, n, clean);
    }
  }

  method ValidateTransferredManifest(entries: seq<Entry>, maximumBytes: int, clean: ByteString -> bool, digestMatches: bool)
    returns (r: Option<Summary>)
    // Accepted exactly when the manifest is acceptable as a whole.
    ensures r.Some? <==> Acceptable(entries, maximumBytes, clean) && digestMatches
    ensures r.Some? ==> r.value == Summary(Count(entries, File), Count(entries, Directory), WrappedTotal(entries))
    ensures r.Some? ==> r.value.files == |PlacesOf(entries, File)| && r.value.directories == |PlacesOf(entries, Directory)|
  {
    if |entries| > MAXIMUM_ENTRIES {
      return None;
    }
    var acc := Progress([], map[], 0, 0, 0);
    EmptyAcceptable(maximumBytes, clean);
    for n := 0 to |entries|
      invariant Acceptable(entries[..n], maximumBytes, clean) && Tracks(acc, entries[..n])
    {
      var ok;
      ok, acc := CheckNext(entries, n, acc, maximumBytes, clean);
      if !ok {
        return None;
      }
    }
    assert entries[..|entries|] == entries;
    CountIsPlaces(entries, File);
    CountIsPlaces(entries, Directory);
    r := if digestMatches then Some(Summary(acc.files, acc.directories, acc.total)) else None;
  }

  lemma EmptyAcceptable(maximumBytes: int, clean: ByteString -> bool)
    ensures Acceptable([], maximumBytes, clean)
  {
  }

  lemma KindsExtend(done: seq<Entry>, e: Entry, kinds: map<ByteString, Kind>)
    requires KindsOf(kinds, done) && Ascending(Paths(done + [e]))
    ensures KindsOf(kinds[e.relative := e.kind], done + [e])
  {
    var all, kinds' := done + [e], kinds[e.relative := e.kind];
    forall i | 0 <= i < |done| ensures done[i].relative != e.relative {
      LessAsymmetric(Paths(all)[i], Paths(all)[|done|]);
    }
    forall p | p in kinds' ensures exists i :: 0 <= i < |all| && all[i].relative == p {
      if p == e.relative {
        assert all[|done|].relative == p;
      } else {
        var i :| 0 <= i < |done| && done[i].relative == p;
        assert all[i].relative == p;
      }
    }
  }

  lemma AcceptedEntry(done: seq<Entry>, e: Entry, maximumBytes: int, clean: ByteString -> bool)
    requires Acceptable(done, maximumBytes, clean) && |done| < MAXIMUM_ENTRIES && Fits(done, e, maximumBytes, clean)
    ensures Acceptable(done + [e], maximumBytes, clean) && Ascending(Paths(done + [e]))
  {
    PathsExtend(done, e);
    EarlierFilesSuffice(done, e);
    TotalsExtend(done, e, maximumBytes);
  }

  lemma PathsExtend(done: seq<Entry>, e: Entry)
    requires Ascending(Paths(done)) && Less(if done == [] then [] else done[|done| - 1].relative, e.relative)
    ensures Ascending(Paths(done + [e]))
  {
    assert Paths(done + [e]) == Paths(done) + [e.relative];
    AscendingExtends(Paths(done), e.relative);
  }

  lemma TotalsExtend(done: seq<Entry>, e: Entry, maximumBytes: int)
    requires TotalsBounded(done, maximumBytes)
    requires e.kind == File ==> Wrap64(WrappedTotal(done) + e.size) <= Limit(maximumBytes)
    ensures TotalsBounded(done + [e], maximumBytes)
  {
    var all := done + [e];
    forall k | 0 <= k < |all| && all[k].kind == File ensures WrappedTotal(all[..k + 1]) <= Limit(maximumBytes) {
      if k < |done| {
        assert all[..k + 1] == done[..k + 1];
      } else {
        assert all[..k + 1] == all;
        TotalOfLonger(done, e);
      }
    }
  }

  lemma TotalOfLonger(done: seq<Entry>, e: Entry)
    requires e.kind == File
    ensures WrappedTotal(done + [e]) == Wrap64(WrappedTotal(done) + e.size)
  {
    assert (done + [e])[..|done|] == done;
  }

  /** An entry that fails a check spoils the whole manifest. */
  lemma RejectedEntry(entries: seq<Entry>, maximumBytes: int, n: nat, clean: ByteString -> bool)
    requires n < |entries| && !Fits(entries[..n], entries[n], maximumBytes, clean)
    ensures !Acceptable(entries, maximumBytes, clean)
  {
    if n > 0 && Ascending(Paths(entries)) {
      assert Less(Paths(entries)[n - 1], Paths(entries)[n]);
    }
    assert entries[..n + 1][..n] == entries[..n];
  }

  // ---------------------------------------------------------------------------------------
  // The byte total

  predicate SizesOk(entries: seq<Entry>) {
    forall i :: 0 <= i < |entries| && entries[i].kind == File ==> 0 <= entries[i].size
  }

  predicate SmallFiles(entries: seq<Entry>, maximumBytes: int) {
    forall i :: 0 <= i < |entries| && entries[i].kind == File ==> entries[i].size <= Limit(maximumBytes)
  }

  /** The accepted total is the exact sum, within the limit, precisely when no single file is larger
      than the limit. */
  lemma TotalExactIff(entries: seq<Entry>, maximumBytes: int, clean: ByteString -> bool)
    requires Acceptable(entries, maximumBytes, clean) && 0 <= maximumBytes
    ensures (WrappedTotal(entries) == ExactTotal(entries) && ExactTotal(entries) <= Limit(maximumBytes))
       <==> SmallFiles(entries, maximumBytes)
  {
    forall i | 0 <= i < |entries| && entries[i].kind == File ensures 0 <= entries[i].size {
      assert EntryOk(entries[i], clean);
    }
    if SmallFiles(entries, maximumBytes) {
      SmallFilesSumExactly(entries, maximumBytes);
    } else {
      var i :| 0 <= i < |entries| && entries[i].kind == File && entries[i].size > Limit(maximumBytes);
      SumCoversEach(entries, i);
    }
  }

  lemma {:induction false} SmallFilesSumExactly(entries: seq<Entry>, maximumBytes: int)
    requires SizesOk(entries) && TotalsBounded(entries, maximumBytes) && SmallFiles(entries, maximumBytes) && 0 <= maximumBytes
    ensures 0 <= WrappedTotal(entries) == ExactTotal(entries) <= Limit(maximumBytes)
  {
    if entries != [] {
      var n := |entries| - 1;
      var p := entries[..n];
      forall i | 0 <= i < n && p[i].kind == File ensures WrappedTotal(p[..i + 1]) <= Limit(maximumBytes) {
        assert p[..i + 1] == entries[..i + 1];
      }
      SmallFilesSumExactly(p, maximumBytes);
      assert entries[..n + 1] == entries;
    }
  }

  lemma {:induction false} SumCoversEach(entries: seq<Entry>, i: nat)
    requires SizesOk(entries) && i < |entries| && entries[i].kind == File
    ensures entries[i].size <= ExactTotal(entries)
  {
    var n := |entries| - 1;
    if i < n {
      SumCoversEach(entries[..n], i);
    } else {
      TotalNonNegative(entries[..n]);
    }
  }

  lemma {:induction false} TotalNonNegative(entries: seq<Entry>)
    requires SizesOk(entries)
    ensures 0 <= ExactTotal(entries)
  {
    if entries != [] {
      TotalNonNegative(entries[..|entries| - 1]);
    }
  }

  /** Two files, of one byte and of 2^63 - 1 bytes, are accepted with a negative total. */
  lemma HugeFileIsAccepted(clean: ByteString -> bool)
    requires clean([97]) && clean([98])
    ensures exists entries: seq<Entry> ::
      && (forall i :: 0 <= i < |entries| ==> IsInt64(entries[i].size))
      && Acceptable(entries, MAXIMUM_BYTES, clean) && WrappedTotal(entries) < 0
  {
    var a := Entry([97], File, 1, Sha256(""), 0, 0);
    var b := Entry([98], File, 0x7fff_ffff_ffff_ffff, Sha256(""), 0, 0);
    OneFileAcceptable(a, clean);
    TwoFilesTotal(a, b);
    assert Fits([a], b, MAXIMUM_BYTES, clean);
    AcceptedEntry([a], b, MAXIMUM_BYTES, clean);
    var entries := [a] + [b];
    assert entries == [a, b];
    assert Acceptable(entries, MAXIMUM_BYTES, clean) && WrappedTotal(entries) < 0;
  }

  lemma OneFileAcceptable(a: Entry, clean: ByteString -> bool)
    requires EntryOk(a, clean) && a.kind == File && a.size == 1
    ensures Acceptable([a], MAXIMUM_BYTES, clean)
  {
    EmptyAcceptable(MAXIMUM_BYTES, clean);
    assert Fits([], a, MAXIMUM_BYTES, clean);
    AcceptedEntry([], a, MAXIMUM_BYTES, clean);
    assert [] + [a] == [a];
  }

  lemma TwoFilesTotal(a: Entry, b: Entry)
    requires a.kind == File && b.kind == File && a.size == 1
    ensures WrappedTotal([a]) == 1 && WrappedTotal([a, b]) == Wrap64(1 + b.size)
  {
    assert [a][..0] == [] && [a, b][..1] == [a];
  }

  // ---------------------------------------------------------------------------------------
  // Look-up

  /** Binary search over the ascending entries. */
  method FindManifestEntry(entries: seq<Entry>, relative: ByteString) returns (r: Option<Entry>)
    requires Ascending(Paths(entries))
    ensures r.Some? ==> r.value in entries && r.value.relative == relative
    ensures r.None? <==> relative !in Paths(entries)
  {
    var low, high := 0, |entries|;
    while low < high
      invariant 0 <= low <= high <= |entries|
      invariant forall i :: 0 <= i < low ==> Less(entries[i].relative, relative)
      invariant forall i :: high <= i < |entries| ==> !Less(entries[i].relative, relative)
    {
      var middle := (low + high) / 2;
      if Less(entries[middle].relative, relative) {
        forall i | 0 <= i < middle ensures Less(entries[i].relative, relative) {
          LessTransitive(Paths(entries)[i], Paths(entries)[middle], relative);
        }
        low := middle + 1;
      } else {
        forall i | middle < i < |entries| ensures !Less(entries[i].relative, relative) {
          if Less(entries[i].relative, relative) {
            LessTransitive(Paths(entries)[middle], Paths(entries)[i], relative);
          }
        }
        high := middle;
      }
    }
    if low < |entries| && entries[low].relative == relative {
      return Some(entries[low]);
    }
    forall i | 0 <= i < |entries| ensures entries[i].relative != relative {
      LessIrreflexive(relative);
      if i > low {
        assert Less(Paths(entries)[low], Paths(entries)[i]);
      }
    }
    r := None;
  }
}
