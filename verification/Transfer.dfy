/** The chunked download of a manifest's files into a cache that survives interruptions, and the
    server's slicing of a file into chunks. */
module Transfer {
  import opened Wrappers
  import opened Bytes
  import opened Int64
  import Manifest

  const CHUNK := 4 * 1024 * 1024
  /** ".partial" */
  const PARTIAL: ByteString := [46, 112, 97, 114, 116, 105, 97, 108]

  datatype Entry = Entry(relative: ByteString, size: nat, sha: string)

  type Checkpoint = map<ByteString, map<nat, string>>

  // ---------------------------------------------------------------------------------------
  // Chunks

  function ChunkCount(size: nat): nat {
    (size + CHUNK - 1) / CHUNK
  }

  function ChunkEnd(size: nat, index: nat): nat {
    if size < (index + 1) * CHUNK then size else (index + 1) * CHUNK
  }

  function Chunk(content: ByteString, index: nat): ByteString
    requires index < ChunkCount(|content|)
  {
    content[index * CHUNK..ChunkEnd(|content|, index)]
  }

  /** For the indexes that the client asks, no 64-bit product or sum of the server overflows. */
  lemma RequestedIndexFits(size: nat, index: nat)
    requires size <= Manifest.MAXIMUM_BYTES && index < ChunkCount(size)
    ensures index * CHUNK < size && (index + 1) * CHUNK <= MAX_INT64 && size + CHUNK - 1 <= MAX_INT64
  {
  }

  /** The number of bytes in the first `n` chunks. */
  function Boundary(size: nat, n: nat): nat {
    if n == 0 then 0 else ChunkEnd(size, n - 1)
  }

  function WriteAt(file: ByteString, data: ByteString, offset: nat): (r: ByteString)
    requires offset + |data| <= |file|
    ensures |r| == |file| && r[..offset] == file[..offset] && r[offset..offset + |data|] == data
  {
    file[..offset] + data + file[offset + |data|..]
  }

  /** A file that agrees with the source up to a chunk and in that chunk agrees up to the next. */
  lemma ChunkAppends(content: ByteString, before: ByteString, file: ByteString, index: nat)
    requires |before| == |file| == |content| && index < ChunkCount(|content|)
    requires before[..Boundary(|content|, index)] == content[..Boundary(|content|, index)]
    requires file[..index * CHUNK] == before[..index * CHUNK]
    requires file[index * CHUNK..ChunkEnd(|content|, index)] == Chunk(content, index)
    ensures Boundary(|content|, index) == index * CHUNK
    ensures file[..Boundary(|content|, index + 1)] == content[..Boundary(|content|, index + 1)]
  {
    var offset, end := index * CHUNK, ChunkEnd(|content|, index);
    assert file[..end] == file[..offset] + file[offset..end];
    assert content[..end] == content[..offset] + content[offset..end];
  }

  function Joined(content: ByteString, n: nat): ByteString
    requires n <= ChunkCount(|content|)
  {
    if n == 0 then [] else Joined(content, n - 1) + Chunk(content, n - 1)
  }

  lemma {:induction false} JoinedIsPrefix(content: ByteString, n: nat)
    requires n <= ChunkCount(|content|)
    ensures Joined(content, n) == content[..Boundary(|content|, n)]
  {
    if n > 0 {
      JoinedIsPrefix(content, n - 1);
    }
  }

  lemma LastChunkEnds(size: nat)
    ensures size == 0 ==> ChunkCount(size) == 0
    ensures size > 0 ==> ChunkCount(size) > 0 && ChunkEnd(size, ChunkCount(size) - 1) == size
  {
  }

  /** The chunks tile the file: every byte is in exactly one of them, in order. */
  lemma ChunksTile(content: ByteString)
    ensures Joined(content, ChunkCount(|content|)) == content
  {
    var n := ChunkCount(|content|);
    LastChunkEnds(|content|);
    JoinedIsPrefix(content, n);
    assert content[..|content|] == content;
  }

  /** The chunk that the server takes an index for: its 64-bit product may wrap. */
  function ServedIndex(index: int): int {
    Wrap64(index * CHUNK) / CHUNK
  }

  lemma WrappedMultiple(index: int)
    ensures Wrap64(index * CHUNK) == ServedIndex(index) * CHUNK
  {
    assert MODULUS == CHUNK * 0x400_0000_0000;
    var q := (index * CHUNK + 0x8000_0000_0000_0000) / MODULUS;
    assert Wrap64(index * CHUNK) == (index - q * 0x400_0000_0000) * CHUNK;
  }

  /** A requested index is taken for itself. */
  lemma RequestedIndexServed(size: nat, index: nat)
    requires size <= MAX_INT64 && index < ChunkCount(size)
    ensures ServedIndex(index) == index && 0 <= index * CHUNK < size
  {
    assert IsInt64(index * CHUNK);
  }

  /** An index far beyond is taken for the first chunk. */
  lemma HugeIndexServesFirst()
    ensures IsInt64(0x400_0000_0000) && ServedIndex(0x400_0000_0000) == 0
  {
  }

  /** The server's handler: `None` is a refusal. */
  method HandleChunk(content: ByteString, index: int) returns (r: Option<ByteString>)
    requires IsInt64(index)
    ensures r.Some? <==> 0 <= index && 0 <= ServedIndex(index) < ChunkCount(|content|)
    ensures r.Some? ==> r.value == Chunk(content, ServedIndex(index))
  {
    WrappedMultiple(index);
    if index < 0 || Wrap64(index * CHUNK) >= |content| {
      return None;
    }
    var offset := Wrap64(index * CHUNK);
    if offset < 0 {
      // Reading at a negative offset is an error.
      return None;
    }
    var length := CHUNK;
    var remaining := |content| - offset;
    if remaining < length {
      length := remaining;
    }
    r := Some(content[offset..offset + length]);
  }

  /** The client asks for a chunk of a file. */
  method AskChunk(content: ByteString, index: nat) returns (data: ByteString)
    requires |content| <= MAX_INT64 && index < ChunkCount(|content|)
    ensures data == Chunk(content, index) && |data| == ChunkEnd(|content|, index) - index * CHUNK
  {
    RequestedIndexServed(|content|, index);
    var r := HandleChunk(content, index);
    data := r.value;
  }

  // ---------------------------------------------------------------------------------------
  // The cache

  ghost predicate Injective(hash: ByteString -> string) {
    && (forall a, b :: hash(a) == hash(b) ==> a == b)
    && (forall a :: hash(a) != "")
  }

  predicate Distinct(entries: seq<Entry>) {
    forall i, j :: 0 <= i < j < |entries| ==> Less(entries[i].relative, entries[j].relative)
  }

  predicate Describes(entries: seq<Entry>, source: map<ByteString, ByteString>, hash: ByteString -> string) {
    && (forall i :: 0 <= i < |entries| ==> Described(entries[i], source, hash))
    && (forall p :: p in source ==> exists i :: 0 <= i < |entries| && entries[i].relative == p)
  }

  predicate Described(e: Entry, source: map<ByteString, ByteString>, hash: ByteString -> string) {
    && e.relative in source && e.size == |source[e.relative]| && e.sha == hash(source[e.relative])
    && e.size <= MAX_INT64 - CHUNK
  }

  /** Digests recorded for one file from honest chunks. */
  predicate HonestChunks(chunks: map<nat, string>, p: ByteString, source: map<ByteString, ByteString>, hash: ByteString -> string) {
    forall i :: i in chunks ==> HonestDigest(chunks[i], p, i, source, hash)
  }

  /** A checkpoint written from honest chunks. */
  predicate HonestCheckpoint(c: Checkpoint, source: map<ByteString, ByteString>, hash: ByteString -> string) {
    forall p :: p in c ==> HonestChunks(c[p], p, source, hash)
  }

  predicate HonestDigest(d: string, p: ByteString, i: nat, source: map<ByteString, ByteString>, hash: ByteString -> string) {
    p in source && i < ChunkCount(|source[p]|) && d == hash(Chunk(source[p], i))
  }

  predicate Complete(files: map<ByteString, ByteString>, source: map<ByteString, ByteString>, p: ByteString) {
    p in source && p in files && files[p] == source[p]
  }

  /** The run will fetch entry `i`: the cache does not have it, or its path is the partial path of an
      earlier entry that will be fetched. */
  predicate WillFetch(entries: seq<Entry>, files: map<ByteString, ByteString>, source: map<ByteString, ByteString>, i: nat)
    requires i < |entries|
  {
    || !Complete(files, source, entries[i].relative)
    || exists k: nat :: k < i && entries[i].relative == entries[k].relative + PARTIAL && WillFetch(entries, files, source, k)
  }

  predicate Pending(entries: seq<Entry>, files: map<ByteString, ByteString>, source: map<ByteString, ByteString>,
                    from: nat, p: ByteString) {
    exists i :: from <= i < |entries| && p == entries[i].relative + PARTIAL && WillFetch(entries, files, source, i)
  }

  /** The cache holds nothing but paths of the manifest and partial files of entries to fetch. */
  predicate NoStray(entries: seq<Entry>, files: map<ByteString, ByteString>, source: map<ByteString, ByteString>, from: nat) {
    forall p :: p in files ==> p in source || Pending(entries, files, source, from, p)
  }

  function TotalBytes(entries: seq<Entry>): nat {
    if entries == [] then 0 else TotalBytes(entries[..|entries| - 1]) + entries[|entries| - 1].size
  }

  function Resized(content: ByteString, size: nat): (r: ByteString)
    ensures |r| == size
  {
    if size <= |content| then content[..size] else content + seq(size - |content|, _ => 0)
  }

  /** Finishing an entry cannot touch one that was finished before: its path and its partial path
      both sort after every earlier path. */
  lemma LaterPathsDiffer(entries: seq<Entry>, j: nat, i: nat)
    requires Distinct(entries) && j < i < |entries|
    ensures entries[j].relative != entries[i].relative
    ensures entries[j].relative != entries[i].relative + PARTIAL
  {
    PrefixLess(entries[i].relative, PARTIAL);
    LessTransitive(entries[j].relative, entries[i].relative, entries[i].relative + PARTIAL);
    LessIrreflexive(entries[j].relative);
  }

  function Finished(files: map<ByteString, ByteString>, p: ByteString, content: ByteString): map<ByteString, ByteString> {
    (files - {p + PARTIAL})[p := content]
  }

  predicate FirstComplete(entries: seq<Entry>, files: map<ByteString, ByteString>, source: map<ByteString, ByteString>, i: nat) {
    i <= |entries| && forall j :: 0 <= j < i ==> Complete(files, source, entries[j].relative)
  }

  /** A cache that has every entry and nothing pending is the source. */
  lemma AllComplete(entries: seq<Entry>, files: map<ByteString, ByteString>, source: map<ByteString, ByteString>, hash: ByteString -> string)
    requires Describes(entries, source, hash) && FirstComplete(entries, files, source, |entries|)
    requires NoStray(entries, files, source, |entries|)
    ensures files == source
  {
    forall p | p in source ensures Complete(files, source, p) {
      var i :| 0 <= i < |entries| && entries[i].relative == p;
    }
    assert files.Keys == source.Keys;
  }

  lemma {:induction false} NothingToFetchBefore(entries: seq<Entry>, files: map<ByteString, ByteString>,
                                                source: map<ByteString, ByteString>, i: nat, k: nat)
    requires FirstComplete(entries, files, source, i) && k < i
    ensures !WillFetch(entries, files, source, k)
  {
    forall m: nat | m < k ensures !WillFetch(entries, files, source, m) {
      NothingToFetchBefore(entries, files, source, i, m);
    }
  }

  /** A skipped entry leaves nothing pending behind. */
  lemma SkippedKeepsOrder(entries: seq<Entry>, files: map<ByteString, ByteString>, source: map<ByteString, ByteString>, i: nat)
    requires NoStray(entries, files, source, i) && i < |entries| && FirstComplete(entries, files, source, i + 1)
    ensures NoStray(entries, files, source, i + 1)
  {
    NothingToFetchBefore(entries, files, source, i + 1, i);
    forall p | p in files && p !in source ensures Pending(entries, files, source, i + 1, p) {
      assert Pending(entries, files, source, i, p);
    }
  }

  /** Working on entry `i`, or finishing it, takes no later entry off the list of those to fetch. */
  lemma {:induction false} StillToFetch(entries: seq<Entry>, files: map<ByteString, ByteString>, files': map<ByteString, ByteString>,
                                        source: map<ByteString, ByteString>, i: nat, k: nat)
    requires Distinct(entries) && FirstComplete(entries, files, source, i) && i < k < |entries|
    requires WillFetch(entries, files, source, k)
    requires forall p :: p != entries[i].relative && p != entries[i].relative + PARTIAL ==>
      (p in files <==> p in files') && (p in files && p in files' ==> files[p] == files'[p])
    requires WillFetch(entries, files', source, i) || entries[i].relative + PARTIAL !in files'
    ensures WillFetch(entries, files', source, k)
  {
    LaterPathsDiffer(entries, i, k);
    if entries[k].relative != entries[i].relative + PARTIAL && Complete(files, source, entries[k].relative) {
      var m: nat :| m < k && entries[k].relative == entries[m].relative + PARTIAL && WillFetch(entries, files, source, m);
      if m < i {
        NothingToFetchBefore(entries, files, source, i, m);
      } else {
        assert m != i;
        StillToFetch(entries, files, files', source, i, m);
      }
    }
  }

  /** While entry `i` is under way its partial file is pending, and so are the others; finished
      entries stay finished. */
  lemma PartialIsPending(entries: seq<Entry>, files: map<ByteString, ByteString>, source: map<ByteString, ByteString>,
                         i: nat, content: ByteString)
    requires Distinct(entries) && i < |entries| && NoStray(entries, files, source, i)
    requires FirstComplete(entries, files, source, i) && !Complete(files, source, entries[i].relative)
    ensures NoStray(entries, files[entries[i].relative + PARTIAL := content], source, 0)
  {
    var path := entries[i].relative + PARTIAL;
    var files' := files[path := content];
    assert |path| != |entries[i].relative|;
    assert WillFetch(entries, files', source, i);
    forall p | p in files' && p !in source ensures Pending(entries, files', source, 0, p) {
      if p != path {
        assert Pending(entries, files, source, i, p);
        var k :| i <= k < |entries| && p == entries[k].relative + PARTIAL && WillFetch(entries, files, source, k);
        if k > i {
          StillToFetch(entries, files, files', source, i, k);
        }
      }
    }
  }

  lemma FinishedKeepsOrder(entries: seq<Entry>, files: map<ByteString, ByteString>, source: map<ByteString, ByteString>, i: nat)
    requires Distinct(entries) && i < |entries| && NoStray(entries, files, source, i) && entries[i].relative in source
    requires FirstComplete(entries, files, source, i)
    ensures var files' := Finished(files, entries[i].relative, source[entries[i].relative]);
            FirstComplete(entries, files', source, i + 1) && NoStray(entries, files', source, i + 1)
  {
    var files' := Finished(files, entries[i].relative, source[entries[i].relative]);
    var path := entries[i].relative + PARTIAL;
    assert |path| != |entries[i].relative|;
    forall j | 0 <= j < i ensures Complete(files', source, entries[j].relative) {
      LaterPathsDiffer(entries, j, i);
    }
    forall p | p in files' && p !in source ensures Pending(entries, files', source, i + 1, p) {
      assert p in files && p != path;
      assert Pending(entries, files, source, i, p);
      var k :| i <= k < |entries| && p == entries[k].relative + PARTIAL && WillFetch(entries, files, source, k);
      assert k != i;
      StillToFetch(entries, files, files', source, i, k);
    }
  }

  /** Pending from a later entry on is pending. */
  lemma NoStrayFromStart(entries: seq<Entry>, files: map<ByteString, ByteString>, source: map<ByteString, ByteString>, i: nat)
    requires NoStray(entries, files, source, i)
    ensures NoStray(entries, files, source, 0)
  {
    forall p | p in files && p !in source ensures Pending(entries, files, source, 0, p) {
      assert Pending(entries, files, source, i, p);
    }
  }

  class Download {
    const hash: ByteString -> string
    const source: map<ByteString, ByteString>
    const entries: seq<Entry>
    var files: map<ByteString, ByteString>
    var checkpoint: Checkpoint

    /** What an interrupted run may leave, against an honest source. */
    ghost predicate Valid()
      reads this
    {
      && Injective(hash) && Distinct(entries) && Describes(entries, source, hash)
      && HonestCheckpoint(checkpoint, source, hash)
      && NoStray(entries, files, source, 0)
    }

    constructor (hash: ByteString -> string, source: map<ByteString, ByteString>, entries: seq<Entry>,
                 files: map<ByteString, ByteString>, checkpoint: Checkpoint)
      requires Injective(hash) && Distinct(entries) && Describes(entries, source, hash)
      requires HonestCheckpoint(checkpoint, source, hash) && NoStray(entries, files, source, 0)
      ensures Valid() && this.source == source && this.entries == entries
      ensures this.files == files && this.checkpoint == checkpoint
    {
      this.hash, this.source, this.entries, this.files, this.checkpoint := hash, source, entries, files, checkpoint;
    }

    method Chance(reliable: bool) returns (ok: bool)
      ensures reliable ==> ok
    {
      ok := *;
      ok := ok || reliable;
    }

    /** One chunk: kept when its bytes still hash to the record, else fetched, written and recorded. */
    method FetchChunk(p: ByteString, index: nat, file: ByteString, chunks: map<nat, string>, reliable: bool)
      returns (ok: bool, file': ByteString, chunks': map<nat, string>)
      requires Injective(hash) && p in source && |file| == |source[p]| <= MAX_INT64 && index < ChunkCount(|source[p]|)
      requires HonestCheckpoint(checkpoint, source, hash) && HonestChunks(chunks, p, source, hash)
      modifies `checkpoint
      ensures HonestCheckpoint(checkpoint, source, hash) && HonestChunks(chunks', p, source, hash)
      ensures |file'| == |file| && file'[..index * CHUNK] == file[..index * CHUNK]
      ensures ok ==> file'[index * CHUNK..ChunkEnd(|file|, index)] == Chunk(source[p], index)
      ensures reliable ==> ok
    {
      file', chunks' := file, chunks;
      var offset, end := index * CHUNK, ChunkEnd(|file|, index);
      if index in chunks {
        assert HonestDigest(chunks[index], p, index, source, hash);
        if hash(file[offset..end]) == chunks[index] {
          return true, file, chunks;
        }
      }
      chunks' := chunks - {index};
      ok := Chance(reliable);
      if !ok {
        return;
      }
      var data := AskChunk(source[p], index);
      ok := Chance(reliable);
      if !ok {
        // A torn write: the region may hold anything.
        var torn := *;
        file' := WriteAt(file, Resized(torn, end - offset), offset);
        return;
      }
      file' := WriteAt(file, data, offset);
      chunks' := chunks'[index := hash(data)];
      ok := Chance(reliable);
      if ok {
        checkpoint := checkpoint[p := chunks'];
      }
    }

    method FetchChunks(p: ByteString, partial: ByteString, reliable: bool)
      returns (ok: bool, assembled: ByteString, completed: nat)
      requires Injective(hash) && HonestCheckpoint(checkpoint, source, hash)
      requires p in source && |partial| == |source[p]| <= MAX_INT64
      modifies `checkpoint
      ensures HonestCheckpoint(checkpoint, source, hash)
      ensures |assembled| == |source[p]|
      ensures ok ==> assembled == source[p] && completed == |source[p]|
      ensures reliable ==> ok
    {
      var size := |source[p]|;
      var chunks: map<nat, string> := if p in checkpoint then checkpoint[p] else map[];
      assembled, completed := partial, 0;
      var index := 0;
      while index < ChunkCount(size)
        invariant 0 <= index <= ChunkCount(size)
        invariant HonestCheckpoint(checkpoint, source, hash) && HonestChunks(chunks, p, source, hash)
        invariant |assembled| == size
        invariant completed == Boundary(size, index)
        invariant assembled[..completed] == source[p][..completed]
      {
        ghost var before := assembled;
        ok, assembled, chunks := FetchChunk(p, index, assembled, chunks, reliable);
        if !ok {
          return;
        }
        ChunkAppends(source[p], before, assembled, index);
        completed := completed + (ChunkEnd(size, index) - index * CHUNK);
        index := index + 1;
      }
      LastChunkEnds(size);
      assert assembled[..size] == assembled && source[p][..size] == source[p];
      ok := true;
    }

    /** Assembles a file in its partial path, verifies it and renames it into place. */
    method Assemble(e: Entry, reliable: bool) returns (ok: bool, completed: nat, assembled: ByteString)
      requires Injective(hash) && HonestCheckpoint(checkpoint, source, hash) && Described(e, source, hash)
      modifies this
      ensures HonestCheckpoint(checkpoint, source, hash)
      ensures ok ==> completed == e.size && files == Finished(old(files), e.relative, source[e.relative])
      ensures !ok ==> files == old(files) || files == old(files)[e.relative + PARTIAL := assembled]
      ensures reliable ==> ok
    {
      completed, assembled := 0, [];
      ok := Chance(reliable);
      if !ok {
        return;
      }
      var path := e.relative + PARTIAL;
      var partial := Resized(if path in files then files[path] else [], e.size);
      ok, assembled, completed := FetchChunks(e.relative, partial, reliable);
      files := files[path := assembled];
      if !ok {
        return;
      }
      // The digest and the size of the assembled file are compared with the manifest's.
      assert hash(assembled) == e.sha && |assembled| == e.size;
      ok := Chance(reliable);
      if ok {
        files := (files - {path})[e.relative := assembled];
        assert old(files)[path := assembled] - {path} == old(files) - {path};
      }
    }

    /** Entry `i`: skipped when the cache has it, else fetched. */
    method FetchEntry(i: nat, reliable: bool) returns (ok: bool, completed: nat)
      requires i < |entries| && Valid() && NoStray(entries, files, source, i)
      requires FirstComplete(entries, files, source, i)
      modifies this
      ensures Valid()
      ensures ok ==> completed == entries[i].size && NoStray(entries, files, source, i + 1)
      ensures ok ==> FirstComplete(entries, files, source, i + 1)
      ensures reliable ==> ok
    {
      var e := entries[i];
      assert Described(e, source, hash);
      if e.relative in files && hash(files[e.relative]) == e.sha && |files[e.relative]| == e.size {
        assert Complete(files, source, e.relative);
        SkippedKeepsOrder(entries, files, source, i);
        return true, e.size;
      }
      assert !Complete(files, source, e.relative);
      ghost var before := files;
      var assembled;
      ok, completed, assembled := Assemble(e, reliable);
      if ok {
        FinishedKeepsOrder(entries, before, source, i);
        NoStrayFromStart(entries, files, source, i + 1);
      } else if files != before {
        PartialIsPending(entries, before, source, i, assembled);
      }
    }

    /** From whatever an interrupted run left, a run either is interrupted again, leaving the cache
        resumable, or ends with exactly the source's files and the manifest's byte total; without
        failures it always ends so. */
    method DownloadManifestTree(reliable: bool) returns (ok: bool, completed: nat)
      requires Valid()
      modifies this
      ensures Valid()
      ensures ok ==> files == source && completed == TotalBytes(entries)
      ensures reliable ==> ok
    {
      completed := 0;
      for i := 0 to |entries|
        invariant Valid() && NoStray(entries, files, source, i)
        invariant FirstComplete(entries, files, source, i)
        invariant completed == TotalBytes(entries[..i])
      {
        var done, bytes := FetchEntry(i, reliable);
        if !done {
          return false, completed;
        }
        assert entries[..i + 1][..i] == entries[..i];
        completed := completed + bytes;
      }
      assert entries[..|entries|] == entries;
      AllComplete(entries, files, source, hash);
      ok := true;
    }

    /** Any number of interrupted runs, then one without failures. */
    method Resume(runs: nat) returns (completed: nat)
      requires Valid()
      modifies this
      ensures Valid() && files == source && completed == TotalBytes(entries)
    {
      for i := 0 to runs
        invariant Valid()
      {
        var _, _ := DownloadManifestTree(false);
      }
      var _, bytes := DownloadManifestTree(true);
      completed := bytes;
    }
  }
}
