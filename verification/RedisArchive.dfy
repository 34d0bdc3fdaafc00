/** The archive of a Redis database: which records fit, the archive's bytes and their reading, the
    trailer and the sizes. */
module RedisArchive {
  import opened Wrappers
  import opened Bytes
  import opened RedisRecords

  /** "ASKIO-REDIS-V1\n" */
  const MAGIC: ByteString := [65, 83, 75, 73, 79, 45, 82, 69, 68, 73, 83, 45, 86, 49, 10]
  const MAXIMUM_TRAILER := 64 * 1024
  const MAXIMUM_ARCHIVE := MAXIMUM_BYTES + MAXIMUM_KEYS * 23 + MAXIMUM_TRAILER + |MAGIC| + 5

  // ---------------------------------------------------------------------------------------
  // What a reader accepts as a sequence of records

  /** The reader's running values: the last record's place and the totals so far. */
  datatype Progress = Progress(database: int, key: ByteString, keyBytes: nat, dataBytes: nat, count: nat)

  const BEGIN := Progress(-1, [], 0, 0, 0)

  predicate RecordFits(p: Progress, r: Record, allowed: set<nat>) {
    && Bounded(r) && r.database in allowed
    && p.keyBytes + |r.key| <= MAXIMUM_KEY_INDEX
    && p.dataBytes + |r.key| + |r.value| <= MAXIMUM_BYTES
    && (p.database < r.database || (p.database == r.database && Less(p.key, r.key)))
    && p.count < MAXIMUM_KEYS
  }

  function Next(p: Progress, r: Record): Progress {
    Progress(r.database, r.key, p.keyBytes + |r.key|, p.dataBytes + |r.key| + |r.value|, p.count + 1)
  }

  predicate Fits(p: Progress, records: seq<Record>, allowed: set<nat>)
    decreases |records|
  {
    records == [] || (RecordFits(p, records[0], allowed) && Fits(Next(p, records[0]), records[1..], allowed))
  }

  function After(p: Progress, records: seq<Record>): Progress
    decreases |records|
  {
    if records == [] then p else After(Next(p, records[0]), records[1..])
  }

  lemma {:induction false} FitsBounded(p: Progress, records: seq<Record>, allowed: set<nat>)
    requires Fits(p, records, allowed)
    ensures AllBounded(records)
    decreases |records|
  {
    if records != [] {
      FitsBounded(Next(p, records[0]), records[1..], allowed);
      assert forall i :: 0 < i < |records| ==> records[i] == records[1..][i - 1];
    }
  }

  lemma {:induction false} FitsAppend(p: Progress, records: seq<Record>, r: Record, allowed: set<nat>)
    requires Fits(p, records, allowed)
    ensures Fits(p, records + [r], allowed) <==> RecordFits(After(p, records), r, allowed)
    ensures After(p, records + [r]) == Next(After(p, records), r)
    decreases |records|
  {
    var all := records + [r];
    if records == [] {
      assert all[1..] == [];
    } else {
      assert all[1..] == records[1..] + [r] && all[0] == records[0];
      FitsAppend(Next(p, records[0]), records[1..], r, allowed);
    }
  }

  function EncodeAll(records: seq<Record>): ByteString
    requires AllBounded(records)
  {
    if records == [] then [] else Encode(records[0]) + EncodeAll(records[1..])
  }

  lemma {:induction false} EncodeAllAppend(records: seq<Record>, r: Record)
    requires AllBounded(records) && Bounded(r)
    ensures AllBounded(records + [r]) && EncodeAll(records + [r]) == EncodeAll(records) + Encode(r)
    decreases |records|
  {
    var all := records + [r];
    if records == [] {
      assert all[1..] == [] && EncodeAll(all) == Encode(r) + [];
    } else {
      assert all[1..] == records[1..] + [r] && all[0] == records[0];
      EncodeAllAppend(records[1..], r);
      assert Encode(records[0]) + (EncodeAll(records[1..]) + Encode(r)) == Encode(records[0]) + EncodeAll(records[1..]) + Encode(r);
    }
  }

  /** The records of an archive body and what follows the end tag. */
  function ReadRecords(p: Progress, rest: ByteString, allowed: set<nat>): (o: Option<(seq<Record>, ByteString)>)
    decreases |rest|
  {
    if rest == [] then None
    else if rest[0] == 255 then Some(([], rest[1..]))
    else if rest[0] != 1 then None
    else
      var one := Decode(rest[1..]);
      if one.None? || !RecordFits(p, one.value.0, allowed) then None
      else
        var more := ReadRecords(Next(p, one.value.0), one.value.1, allowed);
        if more.None? then None else Some(([one.value.0] + more.value.0, more.value.1))
  }

  /** Reading what was written gives the same records, in order. */
  lemma {:induction false} ReadBack(p: Progress, records: seq<Record>, tail: ByteString, allowed: set<nat>)
    requires Fits(p, records, allowed) && AllBounded(records)
    ensures ReadRecords(p, EncodeAll(records) + [255] + tail, allowed) == Some((records, tail))
    decreases |records|
  {
    if records == [] {
      assert EncodeAll(records) + [255] + tail == [255] + tail;
    } else {
      var r, rest := records[0], EncodeAll(records[1..]) + [255] + tail;
      assert records == [r] + records[1..];
      FirstEncoded(r, records[1..], tail);
      DecodeEncode(r, rest);
      assert (Encode(r) + rest)[0] == 1;
      ReadBack(Next(p, r), records[1..], tail, allowed);
      assert [r] + records[1..] == records;
    }
  }

  /** Writing what was read gives the same bytes: the encoding is canonical. */
  lemma {:induction false} WriteBack(p: Progress, rest: ByteString, allowed: set<nat>)
    requires ReadRecords(p, rest, allowed).Some?
    ensures var (records, tail) := ReadRecords(p, rest, allowed).value;
            Fits(p, records, allowed) && AllBounded(records) && rest == EncodeAll(records) + [255] + tail
    decreases |rest|
  {
    if rest[0] == 255 {
      assert rest == [255] + rest[1..];
      assert EncodeAll([]) + [255] + rest[1..] == rest;
    } else {
      var (r, after) := Decode(rest[1..]).value;
      EncodeDecode(rest[1..]);
      assert rest == [1] + rest[1..];
      WriteBack(Next(p, r), after, allowed);
      var (more, tail) := ReadRecords(Next(p, r), after, allowed).value;
      FirstEncoded(r, more, tail);
    }
  }

  lemma FirstEncoded(r: Record, more: seq<Record>, tail: ByteString)
    requires Bounded(r) && AllBounded(more)
    ensures AllBounded([r] + more)
    ensures EncodeAll([r] + more) + [255] + tail == Encode(r) + (EncodeAll(more) + [255] + tail)
  {
    assert ([r] + more)[1..] == more;
    Regroup(Encode(r), EncodeAll(more), [255], tail);
  }

  lemma Regroup(a: ByteString, b: ByteString, c: ByteString, d: ByteString)
    ensures a + b + c + d == a + (b + c + d)
  {
  }

  // ---------------------------------------------------------------------------------------
  // Trailers

  datatype StateMode = Durable | Cache

  datatype Facts = Facts(engine: string, series: string, persistence: string)

  datatype Binding = Binding(engine: string, mode: StateMode, indexes: seq<nat>)

  datatype Trailer = Trailer(
    schema: string, facts: Facts, mode: StateMode, indexes: seq<nat>, acl: string,
    recordCount: nat, excludedCacheKeys: nat, persistentCount: nat, volatileCount: nat,
    allDigest: string, persistentDigest: string, manifestDigest: string)

  const SCHEMA := "operations.migration.redis-archive.v1"

  /** The digests and codecs that the archive relies on. */
  datatype Env = Env(
    sha: ByteString -> string,
    manifest: (Facts, StateMode, seq<nat>, string, nat, string) -> string,
    supported: (string, string) -> bool,
    encode: Trailer -> ByteString,
    decode: ByteString -> Option<Trailer>)

  /** Decoding inverts encoding, and a trailer is at least an empty object. */
  ghost predicate Lawful(env: Env) {
    forall t :: env.decode(env.encode(t)) == Some(t) && |env.encode(t)| >= 2
  }

  function Allowed(b: Binding): set<nat> {
    set i | i in b.indexes
  }

  function Persistent(records: seq<Record>): (r: seq<Record>)
    ensures AllBounded(records) ==> AllBounded(r)
    ensures |r| <= |records|
  {
    if records == [] then []
    else (if records[0].expiry == -1 then [records[0]] else []) + Persistent(records[1..])
  }

  predicate IsPersistent(r: Record) {
    r.expiry == -1
  }

  /** The places of the records that do not expire. */
  function PersistentAt(records: seq<Record>): set<int> {
    set i | 0 <= i < |records| && IsPersistent(records[i])
  }

  /** Each record precedes the later ones: by database, then by key. */
  predicate InOrder(records: seq<Record>) {
    forall i, j :: 0 <= i < j < |records| ==> Precedes(records[i], records[j])
  }

  predicate Precedes(a: Record, b: Record) {
    a.database < b.database || (a.database == b.database && Less(a.key, b.key))
  }

  lemma {:induction false} PersistentOneMore(records: seq<Record>, r: Record)
    ensures Persistent(records + [r]) == Persistent(records) + (if r.expiry == -1 then [r] else [])
  {
    if records != [] {
      PersistentOneMore(records[1..], r);
      assert (records + [r])[1..] == records[1..] + [r];
    }
  }

  lemma PlacesOneMore(records: seq<Record>, r: Record)
    ensures |PersistentAt(records + [r])| == |PersistentAt(records)| + (if r.expiry == -1 then 1 else 0)
  {
    var more := records + [r];
    assert forall i :: 0 <= i < |records| ==> more[i] == records[i];
    assert PersistentAt(more) == PersistentAt(records) + (if r.expiry == -1 then {|records|} else {});
  }

  /** The persistent records are exactly those without an expiry, as many as there are such places, and
      in their order. */
  lemma {:induction false} PersistentExactly(records: seq<Record>)
    ensures forall r :: r in Persistent(records) <==> r in records && r.expiry == -1
    ensures |Persistent(records)| == |PersistentAt(records)|
    ensures InOrder(records) ==> InOrder(Persistent(records))
  {
    if records != [] {
      var n := |records| - 1;
      var some, last := records[..n], records[n];
      assert records == some + [last];
      PersistentExactly(some);
      PersistentOneMore(some, last);
      PlacesOneMore(some, last);
      if InOrder(records) {
        LastInOrder(some, last);
      }
    }
  }

  lemma LastInOrder(some: seq<Record>, last: Record)
    requires InOrder(some + [last]) && InOrder(Persistent(some))
    requires forall r :: r in Persistent(some) ==> r in some
    ensures InOrder(Persistent(some) + [last])
  {
    var p := Persistent(some);
    forall i | 0 <= i < |p| ensures Precedes(p[i], last) {
      assert p[i] in some;
      var k :| 0 <= k < |some| && some[k] == p[i];
      assert Precedes((some + [last])[k], (some + [last])[|some|]);
    }
  }

  /** Fitting records are in order. */
  lemma {:induction false} FitsInOrder(p: Progress, records: seq<Record>, allowed: set<nat>)
    requires Fits(p, records, allowed)
    ensures InOrder(records)
    ensures forall i :: 0 <= i < |records| ==>
      p.database < records[i].database || (p.database == records[i].database && Less(p.key, records[i].key))
    decreases |records|
  {
    if records != [] {
      var r, rest := records[0], records[1..];
      FitsInOrder(Next(p, r), rest, allowed);
      forall i | 0 <= i < |records|
        ensures p.database < records[i].database || (p.database == records[i].database && Less(p.key, records[i].key))
        ensures i > 0 ==> Precedes(r, records[i])
      {
        if i > 0 {
          assert records[i] == rest[i - 1];
          if p.database == records[i].database {
            LessTransitive(p.key, r.key, records[i].key);
          }
        }
      }
      forall i, j | 0 <= i < j < |records| ensures Precedes(records[i], records[j]) {
        if i > 0 {
          assert records[i] == rest[i - 1] && records[j] == rest[j - 1];
        }
      }
    }
  }

  /** The trailer that describes these records. */
  function TrailerFor(env: Env, facts: Facts, b: Binding, acl: string, records: seq<Record>, excluded: nat): Trailer
    requires AllBounded(records)
  {
    var all := env.sha(HashInput(records));
    Trailer(SCHEMA, facts, b.mode, b.indexes, acl, |records|, excluded, |Persistent(records)|, |records| - |Persistent(records)|,
            all, env.sha(HashInput(Persistent(records))),
            env.manifest(facts, b.mode, b.indexes, acl, if b.mode == Cache then 0 else |records|, if b.mode == Cache then env.sha([]) else all))
  }

  predicate TrailerMatches(env: Env, t: Trailer, b: Binding, acl: string, records: seq<Record>)
    requires AllBounded(records)
  {
    && t.schema == SCHEMA && t.facts.engine == b.engine && env.supported(t.facts.engine, t.facts.series)
    && t.mode == b.mode && (t.facts.persistence == "rdb" || t.facts.persistence == "aof")
    && t.acl == acl && t.indexes == b.indexes
    && t.recordCount == |records| && t.persistentCount == |Persistent(records)| && t.volatileCount == |records| - |Persistent(records)|
    && t.allDigest == env.sha(HashInput(records)) && t.persistentDigest == env.sha(HashInput(Persistent(records)))
    && t.recordCount == t.persistentCount + t.volatileCount
    && (b.mode == Cache ==> t.recordCount == 0)
    && (b.mode == Durable ==> t.excludedCacheKeys == 0)
    && t.manifestDigest == env.manifest(t.facts, b.mode, b.indexes, acl,
         if b.mode == Cache then 0 else |records|, if b.mode == Cache then env.sha([]) else t.allDigest)
  }

  /** The bytes of an archive. */
  function Archive(records: seq<Record>, trailer: ByteString): ByteString
    requires AllBounded(records)
  {
    MAGIC + (EncodeAll(records) + [255] + (BigEndian(|trailer|, 4) + trailer))
  }

  /** The trailer's length prefix and bytes, with nothing after. */
  function ReadTrailer(env: Env, tail: ByteString): Option<Trailer> {
    if |tail| < 4 then None
    else
      var n := Number(tail[..4]);
      if n < 2 || n > MAXIMUM_TRAILER || |tail| != 4 + n then None else env.decode(tail[4..])
  }

  /** Reading an archive: the records visited, and the trailer if everything checks. */
  function ReadArchive(env: Env, b: Binding, acl: string, bytes: ByteString): Option<(seq<Record>, Trailer)> {
    if |bytes| < |MAGIC| + 5 || |bytes| > MAXIMUM_ARCHIVE || bytes[..|MAGIC|] != MAGIC then None
    else
      var body := ReadRecords(BEGIN, bytes[|MAGIC|..], Allowed(b));
      if body.None? || (b.mode == Cache && body.value.0 != []) then None
      else
        var (records, tail) := body.value;
        var t := ReadTrailer(env, tail);
        WriteBack(BEGIN, bytes[|MAGIC|..], Allowed(b));
        if t.None? || !TrailerMatches(env, t.value, b, acl, records) then None else Some((records, t.value))
  }

  // ---------------------------------------------------------------------------------------
  // Sizes

  function DataBytes(records: seq<Record>): nat {
    if records == [] then 0 else |records[0].key| + |records[0].value| + DataBytes(records[1..])
  }

  lemma {:induction false} EncodedSize(records: seq<Record>)
    requires AllBounded(records)
    ensures |EncodeAll(records)| == 23 * |records| + DataBytes(records)
  {
    if records != [] {
      EncodedSize(records[1..]);
    }
  }

  lemma {:induction false} FitsTotals(p: Progress, records: seq<Record>, allowed: set<nat>)
    requires Fits(p, records, allowed) && p.count <= MAXIMUM_KEYS && p.dataBytes <= MAXIMUM_BYTES
    ensures p.count + |records| <= MAXIMUM_KEYS && p.dataBytes + DataBytes(records) <= MAXIMUM_BYTES
    decreases |records|
  {
    if records != [] {
      FitsTotals(Next(p, records[0]), records[1..], allowed);
    }
  }

  /** The space that the capacity check asks for, from a key count and a byte total. */
  function CapacityBytes(mode: StateMode, keyCount: int, dataBytes: int): Option<nat> {
    var required := |MAGIC| + 5 + MAXIMUM_TRAILER;
    if mode == Cache then Some(required)
    else if keyCount < 0 || keyCount > MAXIMUM_KEYS || dataBytes < 0 || dataBytes > MAXIMUM_BYTES then None
    else
      var total := required + dataBytes + keyCount * 23;
      if total > MAXIMUM_ARCHIVE then None else Some(total)
  }

  /** Every archive of fitting records fits the reader's limit and the capacity computed from its own
      key count and byte total. */
  lemma ArchiveFits(records: seq<Record>, trailer: ByteString, allowed: set<nat>, mode: StateMode)
    requires Fits(BEGIN, records, allowed) && AllBounded(records) && |trailer| <= MAXIMUM_TRAILER
    requires mode == Cache ==> records == []
    ensures |MAGIC| + 5 <= |Archive(records, trailer)| <= MAXIMUM_ARCHIVE
    ensures var space := CapacityBytes(mode, |records|, DataBytes(records));
            space.Some? && |Archive(records, trailer)| <= space.value
  {
    EncodedSize(records);
    FitsTotals(BEGIN, records, allowed);
  }

  // ---------------------------------------------------------------------------------------
  // Round trips

  /** An archive written for fitting records is read back as the same records and trailer. */
  lemma RoundTrip(env: Env, facts: Facts, b: Binding, acl: string, records: seq<Record>, excluded: nat)
    requires Lawful(env) && Fits(BEGIN, records, Allowed(b)) && AllBounded(records)
    requires facts.engine == b.engine && env.supported(facts.engine, facts.series) && facts.persistence in {"rdb", "aof"}
    requires (b.mode == Cache ==> records == []) && (b.mode == Durable ==> excluded == 0)
    ensures var t := TrailerFor(env, facts, b, acl, records, excluded);
            |env.encode(t)| <= MAXIMUM_TRAILER ==>
              ReadArchive(env, b, acl, Archive(records, env.encode(t))) == Some((records, t))
  {
    var t := TrailerFor(env, facts, b, acl, records, excluded);
    var encoded := env.encode(t);
    if |encoded| <= MAXIMUM_TRAILER {
      var tail := BigEndian(|encoded|, 4) + encoded;
      var bytes := Archive(records, encoded);
      ArchiveFits(records, encoded, Allowed(b), b.mode);
      assert bytes[..|MAGIC|] == MAGIC && bytes[|MAGIC|..] == EncodeAll(records) + [255] + tail;
      ReadBack(BEGIN, records, tail, Allowed(b));
      Widths();
      NumberOfBigEndian(|encoded|, 4);
      assert tail[..4] == BigEndian(|encoded|, 4) && tail[4..] == encoded;
      assert ReadTrailer(env, tail) == Some(t);
    }
  }

  /** Re-encoding the records of an accepted archive reproduces its bytes up to the trailer, which
      decodes to the reported one; and the records are canonical and within the limits. */
  lemma AcceptedIsCanonical(env: Env, b: Binding, acl: string, bytes: ByteString)
    requires ReadArchive(env, b, acl, bytes).Some?
    ensures var (records, t) := ReadArchive(env, b, acl, bytes).value;
            && Fits(BEGIN, records, Allowed(b)) && AllBounded(records)
            && var k := |MAGIC| + |EncodeAll(records)| + 5;
               k <= |bytes| && env.decode(bytes[k..]) == Some(t) && bytes == Archive(records, bytes[k..])
  {
    var tail := ReadParts(env, b, acl, bytes);
    var (records, t) := ReadArchive(env, b, acl, bytes).value;
    PartsAreArchive(env, bytes, Allowed(b), records, tail, t);
  }

  lemma PartsAreArchive(env: Env, bytes: ByteString, allowed: set<nat>, records: seq<Record>, tail: ByteString, t: Trailer)
    requires |MAGIC| <= |bytes| && bytes == MAGIC + bytes[|MAGIC|..]
    requires ReadRecords(BEGIN, bytes[|MAGIC|..], allowed) == Some((records, tail)) && ReadTrailer(env, tail) == Some(t)
    ensures Fits(BEGIN, records, allowed) && AllBounded(records)
    ensures var k := |MAGIC| + |EncodeAll(records)| + 5;
            k <= |bytes| && env.decode(bytes[k..]) == Some(t) && bytes == Archive(records, bytes[k..])
  {
    WriteBack(BEGIN, bytes[|MAGIC|..], allowed);
    TrailerBytes(env, tail);
    ArchiveOf(bytes, records, tail);
  }

  /** What an accepted archive consists of. */
  lemma ReadParts(env: Env, b: Binding, acl: string, bytes: ByteString) returns (tail: ByteString)
    requires ReadArchive(env, b, acl, bytes).Some?
    ensures var (records, t) := ReadArchive(env, b, acl, bytes).value;
            && |MAGIC| <= |bytes| && bytes == MAGIC + bytes[|MAGIC|..]
            && ReadRecords(BEGIN, bytes[|MAGIC|..], Allowed(b)) == Some((records, tail))
            && ReadTrailer(env, tail) == Some(t)
  {
    tail := ReadRecords(BEGIN, bytes[|MAGIC|..], Allowed(b)).value.1;
  }

  lemma ArchiveOf(bytes: ByteString, records: seq<Record>, tail: ByteString)
    requires AllBounded(records) && |MAGIC| <= |bytes| && bytes == MAGIC + bytes[|MAGIC|..]
    requires bytes[|MAGIC|..] == EncodeAll(records) + [255] + tail
    requires |tail| >= 4 && tail == BigEndian(|tail[4..]|, 4) + tail[4..]
    ensures var k := |MAGIC| + |EncodeAll(records)| + 5;
            k <= |bytes| && bytes[k..] == tail[4..] && bytes == Archive(records, bytes[k..])
  {
    TailOf(MAGIC, EncodeAll(records), tail);
  }

  lemma TrailerBytes(env: Env, tail: ByteString)
    requires ReadTrailer(env, tail).Some?
    ensures |tail| >= 4 && tail == BigEndian(|tail[4..]|, 4) + tail[4..] && env.decode(tail[4..]) == ReadTrailer(env, tail)
  {
    BigEndianOfNumber(tail[..4]);
    assert tail == tail[..4] + tail[4..];
  }

  lemma TailOf(magic: ByteString, body: ByteString, tail: ByteString)
    requires |tail| >= 4
    ensures (magic + (body + [255] + tail))[|magic| + |body| + 5..] == tail[4..]
  {
  }

  /** Two archives that carry the same digest of all records carry the same records. */
  lemma SameDigestSameRecords(env: Env, b: Binding, acl: string, x: ByteString, y: ByteString)
    requires forall p, q :: env.sha(p) == env.sha(q) ==> p == q
    requires ReadArchive(env, b, acl, x).Some? && ReadArchive(env, b, acl, y).Some?
    requires ReadArchive(env, b, acl, x).value.1.allDigest == ReadArchive(env, b, acl, y).value.1.allDigest
    ensures ReadArchive(env, b, acl, x).value.0 == ReadArchive(env, b, acl, y).value.0
  {
    AcceptedIsCanonical(env, b, acl, x);
    AcceptedIsCanonical(env, b, acl, y);
    HashInputInjective(ReadArchive(env, b, acl, x).value.0, ReadArchive(env, b, acl, y).value.0);
  }
}
