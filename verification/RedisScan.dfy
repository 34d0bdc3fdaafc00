/** The scan, the writer and the reader as they run. */
module RedisScan {
  import opened Wrappers
  import opened Bytes
  import opened Int64
  import opened RedisRecords
  import opened RedisArchive

  // ---------------------------------------------------------------------------------------
  // Canonical keys

  predicate NonDescending(s: seq<ByteString>) {
    forall i, j :: 0 <= i < j < |s| ==> !Less(s[j], s[i])
  }

  function Inserted(s: seq<ByteString>, x: ByteString): (r: seq<ByteString>)
    ensures |r| == |s| + 1 && forall y :: y in r <==> y in s || y == x
  {
    if s == [] || !Less(s[0], x) then [x] + s else [s[0]] + Inserted(s[1..], x)
  }

  lemma {:induction false} InsertedSorted(s: seq<ByteString>, x: ByteString)
    requires NonDescending(s)
    ensures NonDescending(Inserted(s, x))
  {
    var r := Inserted(s, x);
    if s != [] && Less(s[0], x) {
      InsertedSorted(s[1..], x);
      forall j | 0 < j < |r| ensures !Less(r[j], s[0]) {
        assert r[j] in Inserted(s[1..], x);
        if r[j] == x {
          LessAsymmetric(s[0], x);
        } else {
          var k :| 0 <= k < |s[1..]| && s[1..][k] == r[j];
          assert s[k + 1] == r[j];
        }
      }
    } else {
      forall j | 0 < j < |r| ensures !Less(r[j], x) {
        if Less(s[j - 1], x) {
          LessTotal(s[0], s[j - 1]);
          if Less(s[0], s[j - 1]) {
            LessTransitive(s[0], s[j - 1], x);
          }
        }
      }
    }
  }

  function Sorted(s: seq<ByteString>): (r: seq<ByteString>)
    ensures |r| == |s| && forall y :: y in r <==> y in s
  {
    if s == [] then [] else Inserted(Sorted(s[1..]), s[0])
  }

  lemma {:induction false} SortedSorted(s: seq<ByteString>)
    ensures NonDescending(Sorted(s))
  {
    if s != [] {
      SortedSorted(s[1..]);
      InsertedSorted(Sorted(s[1..]), s[0]);
    }
  }

  function Compact(s: seq<ByteString>): (r: seq<ByteString>)
    ensures |r| <= |s| && (forall y :: y in r <==> y in s) && (s != [] ==> r != [] && r[|r| - 1] == s[|s| - 1])
  {
    if |s| <= 1 then s
    else
      var n := |s| - 1;
      assert s == s[..n] + [s[n]];
      if s[n] == s[n - 1] then Compact(s[..n]) else Compact(s[..n]) + [s[n]]
  }

  lemma {:induction false} CompactAscends(s: seq<ByteString>)
    requires NonDescending(s)
    ensures Ascending(Compact(s))
  {
    if |s| > 1 {
      var n := |s| - 1;
      CompactAscends(s[..n]);
      if s[n] != s[n - 1] {
        LessTotal(s[n - 1], s[n]);
        AscendingExtends(Compact(s[..n]), s[n]);
      }
    }
  }

  /** The keys in ascending order, without repetition. */
  function Canonical(keys: seq<ByteString>): (r: seq<ByteString>)
    ensures |r| <= |keys| && forall k :: k in r <==> k in keys
  {
    Compact(Sorted(keys))
  }

  lemma CanonicalAscends(keys: seq<ByteString>)
    ensures Ascending(Canonical(keys))
  {
    SortedSorted(keys);
    CompactAscends(Sorted(keys));
  }

  /** Sorting and compacting: the loop keeps the last of equal neighbours once. */
  method CanonicalKeys(keys: seq<ByteString>) returns (r: seq<ByteString>)
    ensures r == Canonical(keys) && Ascending(r) && forall k :: k in r <==> k in keys
  {
    var sorted := Sorted(keys);
    CanonicalAscends(keys);
    r := [];
    for i := 0 to |sorted|
      invariant r == Compact(sorted[..i])
    {
      assert sorted[..i + 1][..i] == sorted[..i];
      if r == [] || sorted[i] != r[|r| - 1] {
        r := r + [sorted[i]];
      }
    }
    assert sorted[..|sorted|] == sorted;
  }

  function SumLength(keys: seq<ByteString>): nat {
    if keys == [] then 0 else SumLength(keys[..|keys| - 1]) + |keys[|keys| - 1]|
  }

  lemma {:induction false} SumLengthSplits(a: seq<ByteString>, b: seq<ByteString>)
    ensures SumLength(a + b) == SumLength(a) + SumLength(b)
    decreases |b|
  {
    if b == [] {
      assert a + b == a;
    } else {
      var n := |b| - 1;
      assert (a + b)[..|a| + n] == a + b[..n];
      SumLengthSplits(a, b[..n]);
    }
  }

  /** Distinct keys taken from a list are together no longer than the list. */
  lemma {:induction false} DistinctNoLonger(distinct: seq<ByteString>, keys: seq<ByteString>)
    requires (forall i, j :: 0 <= i < j < |distinct| ==> distinct[i] != distinct[j])
    requires forall k :: k in distinct ==> k in keys
    ensures SumLength(distinct) <= SumLength(keys)
  {
    if distinct != [] {
      var n := |distinct| - 1;
      var x, rest := distinct[n], distinct[..n];
      assert x in distinct;
      var k :| 0 <= k < |keys| && keys[k] == x;
      var left, right := keys[..k], keys[k + 1..];
      assert keys == left + [x] + right;
      forall y | y in rest ensures y in left + right {
        var i :| 0 <= i < n && rest[i] == y;
        assert distinct[i] == y && distinct[i] != distinct[n];
        assert y in keys;
      }
      DistinctNoLonger(rest, left + right);
      SumLengthSplits(left, right);
      SumLengthSplits(left + [x], right);
      SumLengthSplits(left, [x]);
      assert [x][..0] == [];
    }
  }

  // ---------------------------------------------------------------------------------------
  // The scan

  datatype Lookup = Gone | Unsupported | Present(value: ByteString, expiry: int)

  /** One logical database: the batches of keys that the cursor returns, and what each key holds. */
  datatype Database = Database(index: nat, batches: seq<seq<ByteString>>, content: map<ByteString, Lookup>)

  function Found(d: Database, key: ByteString): Lookup {
    if key in d.content then d.content[key] else Gone
  }

  function Live(d: Database, keys: seq<ByteString>): seq<Record> {
    if keys == [] then []
    else
      var n := |keys| - 1;
      Live(d, keys[..n]) + LiveOne(d, keys[n])
  }

  function LiveOne(d: Database, key: ByteString): seq<Record> {
    var found := Found(d, key);
    if found.Present? then [Record(d.index, found.expiry, key, found.value)] else []
  }

  lemma LiveOneMore(d: Database, keys: seq<ByteString>, i: nat)
    requires i < |keys|
    ensures Live(d, keys[..i + 1]) == Live(d, keys[..i]) + LiveOne(d, keys[i])
  {
    assert keys[..i + 1][..i] == keys[..i];
  }

  predicate Ascend(databases: seq<Database>) {
    && (forall i :: 0 <= i < |databases| ==> databases[i].index <= 15)
    && (forall i, j :: 0 <= i < j < |databases| ==> databases[i].index < databases[j].index)
  }

  function Indexes(databases: seq<Database>): set<nat> {
    set d | d in databases :: d.index
  }

  predicate Expiries(d: Database) {
    forall k :: k in d.content && d.content[k].Present? ==> IsInt64(d.content[k].expiry)
  }

  /** All keys that the cursor returns. */
  function All(batches: seq<seq<ByteString>>): seq<ByteString> {
    if batches == [] then [] else All(batches[..|batches| - 1]) + batches[|batches| - 1]
  }

  lemma {:induction false} AllPrefix(batches: seq<seq<ByteString>>, n: nat)
    requires n <= |batches|
    ensures All(batches[..n]) <= All(batches) && SumLength(All(batches[..n])) <= SumLength(All(batches))
  {
    if n == |batches| {
      assert batches[..n] == batches;
    } else {
      var m := |batches| - 1;
      AllPrefix(batches[..m], n);
      assert batches[..m][..n] == batches[..n];
      SumLengthSplits(All(batches[..m]), batches[m]);
    }
  }

  lemma SumLengthPrefix(s: seq<ByteString>, n: nat)
    requires n <= |s|
    ensures SumLength(s[..n]) <= SumLength(s)
  {
    SumLengthSplits(s[..n], s[n..]);
    assert s[..n] + s[n..] == s;
  }

  /** The key-count limit and the key-index limit leave room for these keys. */
  predicate RoomForKeys(batches: seq<seq<ByteString>>, keyCount: nat, indexBytes: nat) {
    && (batches == [] || keyCount + |All(batches)| <= MAXIMUM_KEYS)
    && (All(batches) == [] || indexBytes + SumLength(All(batches)) <= MAXIMUM_KEY_INDEX)
  }

  /** Adds the lengths of one batch, up to the limit. */
  method AddLengths(batch: seq<ByteString>, indexBytes: nat) returns (ok: bool, total: nat)
    ensures ok <==> batch == [] || indexBytes + SumLength(batch) <= MAXIMUM_KEY_INDEX
    ensures ok ==> total == indexBytes + SumLength(batch)
  {
    total := indexBytes;
    for i := 0 to |batch|
      invariant total == indexBytes + SumLength(batch[..i]) && (i == 0 || total <= MAXIMUM_KEY_INDEX)
    {
      assert batch[..i + 1][..i] == batch[..i];
      total := total + |batch[i]|;
      if total > MAXIMUM_KEY_INDEX {
        SumLengthPrefix(batch, i + 1);
        return false, total;
      }
    }
    assert batch[..|batch|] == batch;
    ok := true;
  }

  /** Collects the keys of one database: it succeeds exactly when both limits leave room for them. */
  method CollectKeys(d: Database, keyCount: nat, indexBytes: nat) returns (r: Option<seq<ByteString>>, indexBytes': nat)
    ensures r.Some? <==> RoomForKeys(d.batches, keyCount, indexBytes)
    ensures r.Some? ==> r.value == All(d.batches) && indexBytes' == indexBytes + SumLength(All(d.batches))
  {
    var keys: seq<ByteString> := [];
    indexBytes' := indexBytes;
    for n := 0 to |d.batches|
      invariant keys == All(d.batches[..n]) && indexBytes' == indexBytes + SumLength(keys)
      invariant RoomForKeys(d.batches[..n], keyCount, indexBytes)
    {
      var batch := d.batches[n];
      RoomNext(d.batches, n, keyCount, indexBytes);
      keys := keys + batch;
      if keyCount + |keys| > MAXIMUM_KEYS {
        return None, indexBytes';
      }
      var ok;
      ok, indexBytes' := AddLengths(batch, indexBytes');
      if !ok {
        return None, indexBytes';
      }
    }
    assert d.batches[..|d.batches|] == d.batches;
    r := Some(keys);
  }

  /** What the loop decides at each batch. */
  lemma RoomNext(batches: seq<seq<ByteString>>, n: nat, keyCount: nat, indexBytes: nat)
    requires n < |batches| && RoomForKeys(batches[..n], keyCount, indexBytes)
    ensures var keys, batch := All(batches[..n]), batches[n];
            && All(batches[..n + 1]) == keys + batch && SumLength(keys + batch) == SumLength(keys) + SumLength(batch)
            && var room := keyCount + |keys + batch| <= MAXIMUM_KEYS
                           && (batch == [] || indexBytes + SumLength(keys) + SumLength(batch) <= MAXIMUM_KEY_INDEX);
               if room then RoomForKeys(batches[..n + 1], keyCount, indexBytes) else !RoomForKeys(batches, keyCount, indexBytes)
  {
    assert batches[..n + 1][..n] == batches[..n];
    SumLengthSplits(All(batches[..n]), batches[n]);
    AllPrefix(batches, n + 1);
  }

  /** The cursor returns the key in some batch. */
  predicate Returned(d: Database, key: ByteString) {
    exists b :: 0 <= b < |d.batches| && key in d.batches[b]
  }

  lemma {:induction false} AllReturned(batches: seq<seq<ByteString>>, key: ByteString)
    ensures key in All(batches) <==> exists b :: 0 <= b < |batches| && key in batches[b]
  {
    if batches != [] {
      var n := |batches| - 1;
      AllReturned(batches[..n], key);
      if b :| 0 <= b < |batches| && key in batches[b] && b < n {
        assert key in batches[..n][b];
      }
    }
  }

  /** The database holds the record under one of these keys. */
  predicate HeldAmong(d: Database, keys: seq<ByteString>, r: Record) {
    r.database == d.index && r.key in keys && r.key in d.content && d.content[r.key] == Present(r.value, r.expiry)
  }

  lemma LiveOneHolds(d: Database, key: ByteString, r: Record)
    ensures r in LiveOne(d, key) <==> HeldAmong(d, [key], r)
  {
  }

  lemma {:induction false} LiveHolds(d: Database, keys: seq<ByteString>, r: Record)
    ensures r in Live(d, keys) <==> HeldAmong(d, keys, r)
  {
    if keys != [] {
      var n := |keys| - 1;
      var some, last := keys[..n], keys[n];
      LiveHolds(d, some, r);
      LiveOneHolds(d, last, r);
      assert r.key in keys <==> r.key in some || r.key == last by {
        assert keys == some + [last];
      }
      InEither(Live(d, some), LiveOne(d, last), r);
    }
  }

  lemma InEither<T>(a: seq<T>, b: seq<T>, x: T)
    ensures x in a + b <==> x in a || x in b
  {
  }

  /** The record is what one of the databases holds under a key that the cursor returned. */
  predicate Stored(databases: seq<Database>, r: Record) {
    exists n :: 0 <= n < |databases| && StoredIn(databases[n], r)
  }

  predicate StoredIn(d: Database, r: Record) {
    r.database == d.index && Returned(d, r.key) && r.key in d.content && d.content[r.key] == Present(r.value, r.expiry)
  }

  /** The last record precedes everything still to come from this database. */
  predicate Placed(p: Progress, index: nat, keys: seq<ByteString>, i: nat)
    requires i <= |keys|
  {
    p.database < index || (p.database == index && p.key in keys[..i])
  }

  lemma NextKeyFits(p: Progress, r: Record, keys: seq<ByteString>, i: nat, keyBytes: nat, allowed: set<nat>)
    requires Ascending(keys) && i < |keys| && r.key == keys[i] && Placed(p, r.database, keys, i)
    requires Bounded(r) && r.database in allowed
    requires p.keyBytes <= keyBytes + SumLength(keys[..i]) && keyBytes + SumLength(keys) <= MAXIMUM_KEY_INDEX
    requires p.dataBytes + |r.key| + |r.value| <= MAXIMUM_BYTES && p.count < MAXIMUM_KEYS
    ensures RecordFits(p, r, allowed) && Placed(Next(p, r), r.database, keys, i + 1)
    ensures Next(p, r).keyBytes <= keyBytes + SumLength(keys[..i + 1])
  {
    OneMoreKey(keys, i);
    if p.database == r.database {
      EarlierIsLess(keys, i, p.key);
    }
    assert keys[..i + 1][i] == r.key;
  }

  lemma OneMoreKey(keys: seq<ByteString>, i: nat)
    requires i < |keys|
    ensures SumLength(keys[..i]) + |keys[i]| == SumLength(keys[..i + 1]) <= SumLength(keys)
  {
    assert keys[..i + 1][..i] == keys[..i];
    SumLengthSplits(keys[..i + 1], keys[i + 1..]);
    assert keys[..i + 1] + keys[i + 1..] == keys;
  }

  lemma EarlierIsLess(keys: seq<ByteString>, i: nat, key: ByteString)
    requires Ascending(keys) && i < |keys| && key in keys[..i]
    ensures Less(key, keys[i])
  {
    var k :| 0 <= k < i && keys[..i][k] == key;
  }

  /** Where the scan of a database stands after its first `i` keys. */
  predicate Scanning(all: seq<Record>, d: Database, keys: seq<ByteString>, i: nat, keyBytes: nat, limit: nat, allowed: set<nat>)
    requires i <= |keys|
  {
    && Fits(BEGIN, all, allowed)
    && Placed(After(BEGIN, all), d.index, keys, i)
    && After(BEGIN, all).keyBytes <= keyBytes + SumLength(keys[..i])
    && After(BEGIN, all).count + (|keys| - i) <= limit
  }

  lemma KeySkipped(all: seq<Record>, d: Database, keys: seq<ByteString>, i: nat, keyBytes: nat, limit: nat, allowed: set<nat>)
    requires i < |keys| && Scanning(all, d, keys, i, keyBytes, limit, allowed)
    ensures Scanning(all, d, keys, i + 1, keyBytes, limit, allowed)
  {
    assert keys[..i + 1] == keys[..i] + [keys[i]] && keys[..i + 1][..i] == keys[..i];
  }

  /** The key and what it holds are within the limits on a single record. */
  predicate KeyOk(d: Database, key: ByteString) {
    var found := Found(d, key);
    && 1 <= |key| <= MAXIMUM_KEY && !found.Unsupported?
    && (found.Present? ==> 1 <= |found.value| <= MAXIMUM_VALUE && found.expiry >= -1)
  }

  /** One key: skipped when gone, refused when unsupported or out of bounds, else appended. */
  method ScanKey(d: Database, keys: seq<ByteString>, i: nat, all: seq<Record>, dataBytes: nat, allowed: set<nat>,
                 ghost keyBytes: nat, ghost limit: nat)
    returns (r: Option<seq<Record>>, dataBytes': nat)
    requires i < |keys| && Ascending(keys) && d.index in allowed && d.index <= 15 && Expiries(d)
    requires Scanning(all, d, keys, i, keyBytes, limit, allowed)
    requires keyBytes + SumLength(keys) <= MAXIMUM_KEY_INDEX && limit <= MAXIMUM_KEYS
    requires dataBytes == DataBytes(all) == After(BEGIN, all).dataBytes <= MAXIMUM_BYTES
    ensures r.Some? <==> KeyOk(d, keys[i]) && DataBytes(all + LiveOne(d, keys[i])) <= MAXIMUM_BYTES
    ensures r.Some? ==> r.value == all + LiveOne(d, keys[i]) && Scanning(r.value, d, keys, i + 1, keyBytes, limit, allowed)
    ensures r.Some? ==> dataBytes' == DataBytes(r.value) == After(BEGIN, r.value).dataBytes
  {
    var key := keys[i];
    dataBytes' := dataBytes;
    KeySkipped(all, d, keys, i, keyBytes, limit, allowed);
    if |key| < 1 || |key| > MAXIMUM_KEY {
      return None, dataBytes;
    }
    var found := Found(d, key);
    match found
    case Unsupported => r := None;
    case Gone =>
      assert all + [] == all;
      r := Some(all);
    case Present(value, expiry) =>
      if |value| < 1 || |value| > MAXIMUM_VALUE || expiry < -1 {
        return None, dataBytes;
      }
      var record := Record(d.index, expiry, key, value);
      DataAppends(all, [record]);
      dataBytes' := dataBytes + (|key| + |value|);
      if dataBytes' > MAXIMUM_BYTES {
        return None, dataBytes;
      }
      NextKeyFits(After(BEGIN, all), record, keys, i, keyBytes, allowed);
      FitsAppend(BEGIN, all, record, allowed);
      r := Some(all + [record]);
  }

  lemma {:induction false} DataAppends(a: seq<Record>, b: seq<Record>)
    ensures DataBytes(a + b) == DataBytes(a) + DataBytes(b)
  {
    if a == [] {
      assert a + b == b;
    } else {
      DataAppends(a[1..], b);
      assert (a + b)[1..] == a[1..] + b;
    }
  }

  lemma {:induction false} AfterData(p: Progress, records: seq<Record>)
    ensures After(p, records).dataBytes == p.dataBytes + DataBytes(records)
    decreases |records|
  {
    if records != [] {
      AfterData(Next(p, records[0]), records[1..]);
    }
  }

  lemma {:induction false} LivePrefix(d: Database, keys: seq<ByteString>, i: nat)
    requires i <= |keys|
    ensures DataBytes(Live(d, keys[..i])) <= DataBytes(Live(d, keys))
  {
    if i == |keys| {
      assert keys[..i] == keys;
    } else {
      var n := |keys| - 1;
      LivePrefix(d, keys[..n], i);
      assert keys[..n][..i] == keys[..i];
      LiveGrows(d, keys);
    }
  }

  lemma LiveGrows(d: Database, keys: seq<ByteString>)
    requires keys != []
    ensures DataBytes(Live(d, keys[..|keys| - 1])) <= DataBytes(Live(d, keys))
  {
    var n := |keys| - 1;
    DataAppends(Live(d, keys[..n]), LiveOne(d, keys[n]));
  }

  predicate AllOk(d: Database, keys: seq<ByteString>) {
    forall i :: 0 <= i < |keys| ==> KeyOk(d, keys[i])
  }

  /** Too much after some of the keys is too much after all of them. */
  lemma TooMuch(d: Database, keys: seq<ByteString>, records: seq<Record>, i: nat)
    requires i <= |keys| && DataBytes(records + Live(d, keys[..i])) > MAXIMUM_BYTES
    ensures DataBytes(records + Live(d, keys)) > MAXIMUM_BYTES
  {
    LivePrefix(d, keys, i);
    DataAppends(records, Live(d, keys[..i]));
    DataAppends(records, Live(d, keys));
  }

  /** A key that cannot be taken spoils the whole. */
  lemma ScanRefused(d: Database, keys: seq<ByteString>, records: seq<Record>, i: nat)
    requires i < |keys|
    requires !(KeyOk(d, keys[i]) && DataBytes(records + Live(d, keys[..i + 1])) <= MAXIMUM_BYTES)
    ensures !(AllOk(d, keys) && DataBytes(records + Live(d, keys)) <= MAXIMUM_BYTES)
  {
    if KeyOk(d, keys[i]) {
      TooMuch(d, keys, records, i + 1);
    }
  }

  /** The scan of a database after its first `i` keys, all of them within the limits. */
  ghost predicate Scanned(all: seq<Record>, records: seq<Record>, d: Database, keys: seq<ByteString>, i: nat, dataBytes: nat,
                          keyBytes: nat, limit: nat, allowed: set<nat>)
    requires i <= |keys|
  {
    && all == records + Live(d, keys[..i]) && Scanning(all, d, keys, i, keyBytes, limit, allowed)
    && dataBytes == DataBytes(all) == After(BEGIN, all).dataBytes <= MAXIMUM_BYTES
    && forall k :: 0 <= k < i ==> KeyOk(d, keys[k])
  }

  lemma ScannedOneMore(records: seq<Record>, d: Database, keys: seq<ByteString>, i: nat)
    requires i < |keys|
    ensures records + Live(d, keys[..i]) + LiveOne(d, keys[i]) == records + Live(d, keys[..i + 1])
  {
    LiveOneMore(d, keys, i);
  }

  /** Appends the records of one database: every key that still holds a value, in canonical order. */
  method ScanDatabase(d: Database, keys: seq<ByteString>, records: seq<Record>, dataBytes: nat, allowed: set<nat>,
                      ghost keyBytes: nat, ghost limit: nat)
    returns (r: Option<seq<Record>>, dataBytes': nat)
    requires Ascending(keys) && d.index in allowed && d.index <= 15 && Expiries(d)
    requires Fits(BEGIN, records, allowed) && After(BEGIN, records).database < d.index
    requires After(BEGIN, records).keyBytes <= keyBytes && keyBytes + SumLength(keys) <= MAXIMUM_KEY_INDEX
    requires After(BEGIN, records).count + |keys| <= limit <= MAXIMUM_KEYS
    requires dataBytes == DataBytes(records) == After(BEGIN, records).dataBytes <= MAXIMUM_BYTES
    ensures r.Some? <==> AllOk(d, keys) && DataBytes(records + Live(d, keys)) <= MAXIMUM_BYTES
    ensures r.Some? ==> r.value == records + Live(d, keys) && Scanning(r.value, d, keys, |keys|, keyBytes, limit, allowed)
    ensures r.Some? ==> dataBytes' == DataBytes(r.value) == After(BEGIN, r.value).dataBytes
  {
    var all := records;
    dataBytes' := dataBytes;
    assert records + Live(d, keys[..0]) == records;
    for i := 0 to |keys|
      invariant Scanned(all, records, d, keys, i, dataBytes', keyBytes, limit, allowed)
    {
      ScannedOneMore(records, d, keys, i);
      var next;
      next, dataBytes' := ScanKey(d, keys, i, all, dataBytes', allowed, keyBytes, limit);
      if next.None? {
        ScanRefused(d, keys, records, i);
        return None, dataBytes';
      }
      all := next.value;
    }
    assert keys[..|keys|] == keys;
    r := Some(all);
  }

  /** The keys of a database, in canonical order. */
  function KeysOf(d: Database): seq<ByteString> {
    Canonical(All(d.batches))
  }

  /** What a complete scan visits: per database, the live keys in canonical order. */
  function ScanOf(databases: seq<Database>): seq<Record> {
    if databases == [] then []
    else
      var n := |databases| - 1;
      ScanOf(databases[..n]) + Live(databases[n], KeysOf(databases[n]))
  }

  lemma StoredOneMore(databases: seq<Database>, r: Record)
    requires databases != []
    ensures Stored(databases, r) <==> Stored(databases[..|databases| - 1], r) || StoredIn(databases[|databases| - 1], r)
  {
    var n := |databases| - 1;
    if Stored(databases[..n], r) {
      var m :| 0 <= m < n && StoredIn(databases[..n][m], r);
      assert StoredIn(databases[m], r);
    }
    if Stored(databases, r) {
      var m :| 0 <= m < |databases| && StoredIn(databases[m], r);
      assert m < n ==> StoredIn(databases[..n][m], r);
    }
  }

  /** The scan visits exactly what the databases hold under the returned keys, expiries included. */
  lemma {:induction false} ScanHolds(databases: seq<Database>, r: Record)
    ensures r in ScanOf(databases) <==> Stored(databases, r)
  {
    if databases != [] {
      var n := |databases| - 1;
      var d := databases[n];
      ScanHolds(databases[..n], r);
      StoredOneMore(databases, r);
      LiveHolds(d, KeysOf(d), r);
      AllReturned(d.batches, r.key);
      InEither(ScanOf(databases[..n]), Live(d, KeysOf(d)), r);
    }
  }

  /** The lengths of all keys that the cursors return. */
  function IndexBytes(databases: seq<Database>): nat {
    if databases == [] then 0
    else IndexBytes(databases[..|databases| - 1]) + SumLength(All(databases[|databases| - 1].batches))
  }

  /** What the scan asks of a database after those before it. */
  predicate NextOk(d: Database, before: seq<Record>, indexBytes: nat) {
    && RoomForKeys(d.batches, |before|, indexBytes)
    && AllOk(d, KeysOf(d)) && DataBytes(before + Live(d, KeysOf(d))) <= MAXIMUM_BYTES
  }

  /** The databases are within the limits on keys, on their index, on single records and on all data,
      and hold supported types only. */
  predicate Scannable(databases: seq<Database>) {
    forall n :: 0 <= n < |databases| ==> NextOk(databases[n], ScanOf(databases[..n]), IndexBytes(databases[..n]))
  }

  lemma AscendingDistinct(keys: seq<ByteString>)
    requires Ascending(keys)
    ensures forall i, j :: 0 <= i < j < |keys| ==> keys[i] != keys[j]
  {
    forall i, j | 0 <= i < j < |keys| ensures keys[i] != keys[j] {
      LessAsymmetric(keys[i], keys[j]);
    }
  }

  /** Where the scan stands between two databases. */
  ghost predicate Between(records: seq<Record>, indexBytes: nat, dataBytes: nat, allowed: set<nat>) {
    && Fits(BEGIN, records, allowed)
    && After(BEGIN, records).keyBytes <= indexBytes <= MAXIMUM_KEY_INDEX
    && dataBytes == DataBytes(records) == After(BEGIN, records).dataBytes
  }

  /** One database: its keys collected, put in canonical order and looked up. */
  method ScanNext(d: Database, records: seq<Record>, indexBytes: nat, dataBytes: nat, allowed: set<nat>)
    returns (r: Option<seq<Record>>, indexBytes': nat, dataBytes': nat)
    requires d.index in allowed && d.index <= 15 && Expiries(d)
    requires Between(records, indexBytes, dataBytes, allowed) && After(BEGIN, records).database < d.index
    ensures r.Some? <==> NextOk(d, records, indexBytes)
    ensures r.Some? ==> r.value == records + Live(d, KeysOf(d)) && indexBytes' == indexBytes + SumLength(All(d.batches))
    ensures r.Some? ==> Between(r.value, indexBytes', dataBytes', allowed) && After(BEGIN, r.value).database <= d.index
  {
    var raw;
    raw, indexBytes' := CollectKeys(d, |records|, indexBytes);
    dataBytes' := dataBytes;
    if raw.None? {
      return None, indexBytes', dataBytes';
    }
    var keys := CanonicalKeys(raw.value);
    AscendingDistinct(keys);
    DistinctNoLonger(keys, raw.value);
    CountsAll(BEGIN, records);
    FitsTotals(BEGIN, records, allowed);
    r, dataBytes' := ScanDatabase(d, keys, records, dataBytes, allowed, indexBytes, MAXIMUM_KEYS);
    assert keys[..|keys|] == keys;
  }

  /** The scan of every database: it succeeds exactly when they are scannable, with the live keys in
      canonical order, and what it returns is within every limit of the archive reader. */
  method ScanRedisRecords(databases: seq<Database>) returns (r: Option<seq<Record>>)
    requires Ascend(databases) && forall i :: 0 <= i < |databases| ==> Expiries(databases[i])
    ensures r.Some? <==> Scannable(databases)
    ensures r.Some? ==> r.value == ScanOf(databases) && Fits(BEGIN, r.value, Indexes(databases))
    // Exactly what the databases hold under the returned keys, in ascending order, each once.
    ensures r.Some? ==> InOrder(r.value) && forall one :: one in r.value <==> Stored(databases, one)
  {
    var records: seq<Record> := [];
    var indexBytes, dataBytes := 0, 0;
    for n := 0 to |databases|
      invariant Between(records, indexBytes, dataBytes, Indexes(databases))
      invariant records == ScanOf(databases[..n]) && indexBytes == IndexBytes(databases[..n])
      invariant forall m :: 0 <= m < n ==> NextOk(databases[m], ScanOf(databases[..m]), IndexBytes(databases[..m]))
      invariant After(BEGIN, records).database <= if n == 0 then -1 else databases[n - 1].index
    {
      var more;
      more, indexBytes, dataBytes := ScanNext(databases[n], records, indexBytes, dataBytes, Indexes(databases));
      if more.None? {
        return None;
      }
      records := more.value;
      ScanExtends(databases, n);
    }
    assert databases[..|databases|] == databases;
    FitsInOrder(BEGIN, records, Indexes(databases));
    forall one ensures one in records <==> Stored(databases, one) {
      ScanHolds(databases, one);
    }
    r := Some(records);
  }

  lemma ScanExtends(databases: seq<Database>, n: nat)
    requires n < |databases|
    ensures ScanOf(databases[..n + 1]) == ScanOf(databases[..n]) + Live(databases[n], KeysOf(databases[n]))
    ensures IndexBytes(databases[..n + 1]) == IndexBytes(databases[..n]) + SumLength(All(databases[n].batches))
  {
    assert databases[..n + 1][..n] == databases[..n];
  }

  lemma {:induction false} CountsAll(p: Progress, records: seq<Record>)
    ensures After(p, records).count == p.count + |records|
    decreases |records|
  {
    if records != [] {
      CountsAll(Next(p, records[0]), records[1..]);
    }
  }

  /** The same keys and values, delivered in whatever batches, order and repetition. */
  ghost predicate SameContent(a: Database, b: Database) {
    a.index == b.index && a.content == b.content && forall k :: k in All(a.batches) <==> k in All(b.batches)
  }

  lemma {:induction false} LiveAlike(a: Database, b: Database, keys: seq<ByteString>)
    requires SameContent(a, b)
    ensures Live(a, keys) == Live(b, keys)
  {
    if keys != [] {
      LiveAlike(a, b, keys[..|keys| - 1]);
    }
  }

  lemma KeysAlike(a: Database, b: Database)
    requires SameContent(a, b)
    ensures KeysOf(a) == KeysOf(b)
  {
    CanonicalAscends(All(a.batches));
    CanonicalAscends(All(b.batches));
    AscendingUnique(KeysOf(a), KeysOf(b));
  }

  /** A complete scan visits the same records, whatever batches the cursor returned. */
  lemma {:induction false} ScanIsDetermined(a: seq<Database>, b: seq<Database>)
    requires |a| == |b| && forall i :: 0 <= i < |a| ==> SameContent(a[i], b[i])
    ensures ScanOf(a) == ScanOf(b)
  {
    if a != [] {
      var n := |a| - 1;
      ScanIsDetermined(a[..n], b[..n]);
      KeysAlike(a[n], b[n]);
      LiveAlike(a[n], b[n], KeysOf(a[n]));
    }
  }

  // ---------------------------------------------------------------------------------------
  // The writer

  /** Writes the header, the records and the trailer.  The size check inside the loop never fires. */
  method WriteRedisArchive(records: seq<Record>, trailer: ByteString, ghost allowed: set<nat>) returns (bytes: Option<ByteString>)
    requires Fits(BEGIN, records, allowed) && AllBounded(records)
    ensures bytes.Some? <==> |trailer| <= MAXIMUM_TRAILER
    ensures bytes.Some? ==> bytes.value == Archive(records, trailer)
  {
    var output := MAGIC;
    EncodedSize(records);
    FitsTotals(BEGIN, records, allowed);
    for i := 0 to |records|
      invariant AllBounded(records[..i]) && output == MAGIC + EncodeAll(records[..i])
    {
      WrittenOneMore(records, i, MAGIC);
      PrefixSize(records, i + 1);
      output := output + Encode(records[i]);
      if |output| > MAXIMUM_ARCHIVE {
        return None;
      }
    }
    assert records[..|records|] == records;
    if |trailer| > MAXIMUM_TRAILER {
      return None;
    }
    output := output + [255] + BigEndian(|trailer|, 4) + trailer;
    assert output == Archive(records, trailer);
    bytes := Some(output);
  }

  lemma WrittenOneMore(records: seq<Record>, i: nat, magic: ByteString)
    requires AllBounded(records) && i < |records|
    ensures AllBounded(records[..i]) && AllBounded(records[..i + 1])
    ensures magic + EncodeAll(records[..i]) + Encode(records[i]) == magic + EncodeAll(records[..i + 1])
  {
    assert records[..i + 1] == records[..i] + [records[i]];
    EncodeAllAppend(records[..i], records[i]);
  }

  lemma PrefixSize(records: seq<Record>, i: nat)
    requires AllBounded(records) && i <= |records|
    ensures AllBounded(records[..i]) && |EncodeAll(records[..i])| <= |EncodeAll(records)|
  {
    EncodedSize(records);
    EncodedSize(records[..i]);
    PrefixBytes(records, i);
  }

  lemma {:induction false} PrefixBytes(records: seq<Record>, i: nat)
    requires i <= |records|
    ensures DataBytes(records[..i]) <= DataBytes(records)
  {
    if i > 0 {
      PrefixBytes(records[1..], i - 1);
      assert records[..i][1..] == records[1..][..i - 1];
    }
  }

  // ---------------------------------------------------------------------------------------
  // The reader

  function Prepended(visited: seq<Record>, o: Option<(seq<Record>, ByteString)>): Option<(seq<Record>, ByteString)> {
    if o.None? then None else Some((visited + o.value.0, o.value.1))
  }

  /** Reads record after record, checking each against the running values. */
  method ReadBody(rest: ByteString, allowed: set<nat>) returns (r: Option<(seq<Record>, ByteString)>)
    ensures r == ReadRecords(BEGIN, rest, allowed)
  {
    var visited: seq<Record> := [];
    var p := BEGIN;
    var left := rest;
    assert Prepended([], ReadRecords(BEGIN, rest, allowed)) == ReadRecords(BEGIN, rest, allowed) by {
      var o := ReadRecords(BEGIN, rest, allowed);
      assert o.Some? ==> [] + o.value.0 == o.value.0;
    }
    while true
      invariant Prepended(visited, ReadRecords(p, left, allowed)) == ReadRecords(BEGIN, rest, allowed)
      decreases |left|
    {
      if left == [] {
        return None;
      }
      if left[0] == 255 {
        assert visited + [] == visited;
        return Some((visited, left[1..]));
      }
      if left[0] != 1 {
        return None;
      }
      var one := Decode(left[1..]);
      if one.None? || !RecordFits(p, one.value.0, allowed) {
        return None;
      }
      var record := one.value.0;
      RegroupRecords(visited, record, ReadRecords(Next(p, record), one.value.1, allowed));
      visited, p, left := visited + [record], Next(p, record), one.value.1;
    }
  }

  lemma RegroupRecords(visited: seq<Record>, record: Record, o: Option<(seq<Record>, ByteString)>)
    ensures o.Some? ==> visited + ([record] + o.value.0) == visited + [record] + o.value.0
  {
  }

  method ReadRedisArchive(env: Env, b: Binding, acl: string, bytes: ByteString) returns (r: Option<(seq<Record>, Trailer)>)
    ensures r == ReadArchive(env, b, acl, bytes)
  {
    if |bytes| < |MAGIC| + 5 || |bytes| > MAXIMUM_ARCHIVE || bytes[..|MAGIC|] != MAGIC {
      return None;
    }
    var body := ReadBody(bytes[|MAGIC|..], Allowed(b));
    if body.None? || (b.mode == Cache && body.value.0 != []) {
      return None;
    }
    var (records, tail) := body.value;
    var t := ReadTrailer(env, tail);
    WriteBack(BEGIN, bytes[|MAGIC|..], Allowed(b));
    if t.None? || !TrailerMatches(env, t.value, b, acl, records) {
      return None;
    }
    r := Some((records, t.value));
  }

  /** Scan, write, read: the reader visits exactly the scanned records and returns the trailer. */
  method DumpAndRead(env: Env, facts: Facts, b: Binding, acl: string, databases: seq<Database>)
    returns (scanned: Option<seq<Record>>, read: Option<(seq<Record>, Trailer)>)
    requires Lawful(env) && b.mode == Durable && Ascend(databases) && Allowed(b) == Indexes(databases)
    requires forall i :: 0 <= i < |databases| ==> Expiries(databases[i])
    requires facts.engine == b.engine && env.supported(facts.engine, facts.series) && facts.persistence in {"rdb", "aof"}
    ensures scanned.Some? <==> Scannable(databases)
    ensures scanned.Some? ==> scanned.value == ScanOf(databases) && AllBounded(scanned.value)
    ensures scanned.Some? ==> var t := TrailerFor(env, facts, b, acl, scanned.value, 0);
      read == if |env.encode(t)| <= MAXIMUM_TRAILER then Some((scanned.value, t)) else None
    // What is read back is what the databases hold, and the trailer counts it by expiry.
    ensures read.Some? ==> InOrder(read.value.0) && forall one :: one in read.value.0 <==> Stored(databases, one)
    ensures read.Some? ==>
      var records, t := read.value.0, read.value.1;
      && t.recordCount == |records| == t.persistentCount + t.volatileCount
      && t.persistentCount == |set i | 0 <= i < |records| && IsPersistent(records[i])|
  {
    scanned := ScanRedisRecords(databases);
    read := None;
    if scanned.Some? {
      var records := scanned.value;
      FitsBounded(BEGIN, records, Allowed(b));
      var trailer := TrailerFor(env, facts, b, acl, records, 0);
      var bytes := WriteRedisArchive(records, env.encode(trailer), Allowed(b));
      RoundTrip(env, facts, b, acl, records, 0);
      PersistentExactly(records);
      if bytes.Some? {
        read := ReadRedisArchive(env, b, acl, bytes.value);
      }
    }
  }
}
