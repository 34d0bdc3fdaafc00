/** A MongoDB dump taken while writes go on, and the bounded oplog delta that repairs it.

    A history of oplog entries determines the database at every position.  The dump reads each
    document at some position of its own; the delta re-reads every document that the oplog window
    names; applying the delta in any order must give the database at the end of the window. */
module MongoDelta {
  import opened Wrappers

  datatype Key = Key(collection: string, id: string)

  datatype Doc = Doc(id: string, body: string)

  type Database = map<Key, Doc>

  /** Entries as the capture sees them: a write to a document of the database, an operation on the
      database or its users that is not supported (a command, a transaction, an entry without an
      identity), an administrative command that does not touch the database, or anything else. */
  datatype Op =
    | Write(key: Key, after: Option<Doc>)
    | Scoped(result: Database)
    | Admin
    | Foreign

  const MAXIMUM_ITEMS := 10_000

  function Get(d: Database, k: Key): Option<Doc> {
    if k in d then Some(d[k]) else None
  }

  function Put(d: Database, k: Key, v: Option<Doc>): (r: Database)
    ensures forall q :: Get(r, q) == if q == k then v else Get(d, q)
  {
    if v.Some? then d[k := v.value] else d - {k}
  }

  function Effect(d: Database, op: Op): Database {
    match op
    case Write(key, after) => Put(d, key, after)
    case Scoped(result) => result
    case Admin => d
    case Foreign => d
  }

  /** The database after the first `n` entries. */
  function At(initial: Database, history: seq<Op>, n: nat): Database
    requires n <= |history|
  {
    if n == 0 then initial else Effect(At(initial, history, n - 1), history[n - 1])
  }

  predicate Writes(history: seq<Op>, k: Key, from: nat, to: nat)
    requires to <= |history|
  {
    exists i :: from <= i < to && history[i].Write? && history[i].key == k
  }

  predicate NoneScoped(history: seq<Op>, from: nat, to: nat)
    requires to <= |history|
  {
    forall i :: from <= i < to ==> !history[i].Scoped?
  }

  /** No entry of the range concerns the database or is an administrative command. */
  predicate Quiet(history: seq<Op>, from: nat, to: nat)
    requires to <= |history|
  {
    forall i :: from <= i < to ==> history[i].Foreign?
  }

  /** A dump that read each key at some position of the window. */
  ghost predicate FuzzyDump(base: Database, initial: Database, history: seq<Op>, start: nat, end: nat)
    requires start <= end <= |history|
  {
    forall k :: ReadSometime(base, initial, history, start, end, k)
  }

  predicate ReadSometime(base: Database, initial: Database, history: seq<Op>, start: nat, end: nat, k: Key)
    requires end <= |history|
  {
    exists t: nat :: start <= t <= end && Get(base, k) == Get(At(initial, history, t), k)
  }

  lemma {:induction false} UnwrittenUnchanged(initial: Database, history: seq<Op>, k: Key, from: nat, to: nat)
    requires from <= to <= |history| && NoneScoped(history, from, to) && !Writes(history, k, from, to)
    ensures Get(At(initial, history, from), k) == Get(At(initial, history, to), k)
  {
    if from < to {
      UnwrittenUnchanged(initial, history, k, from, to - 1);
    }
  }

  lemma {:induction false} QuietUnchanged(initial: Database, history: seq<Op>, from: nat, to: nat)
    requires from <= to <= |history| && Quiet(history, from, to)
    ensures At(initial, history, from) == At(initial, history, to)
  {
    if from < to {
      QuietUnchanged(initial, history, from, to - 1);
    }
  }

  // ---------------------------------------------------------------------------------------
  // Deltas

  datatype Mutation = Mutation(key: Key, document: Option<Doc>)

  function ApplyAll(d: Database, mutations: seq<Mutation>): Database {
    if mutations == [] then d
    else
      var n := |mutations| - 1;
      Put(ApplyAll(d, mutations[..n]), mutations[n].key, mutations[n].document)
  }

  predicate DistinctKeys(mutations: seq<Mutation>) {
    forall i, j :: 0 <= i < j < |mutations| ==> mutations[i].key != mutations[j].key
  }

  predicate Names(mutations: seq<Mutation>, k: Key) {
    exists i :: 0 <= i < |mutations| && mutations[i].key == k
  }

  /** What applying distinct mutations does to a key, in whatever order they stand. */
  lemma {:induction false} ApplyAllAt(d: Database, mutations: seq<Mutation>, k: Key)
    requires DistinctKeys(mutations)
    ensures !Names(mutations, k) ==> Get(ApplyAll(d, mutations), k) == Get(d, k)
    ensures forall i :: 0 <= i < |mutations| && mutations[i].key == k ==> Get(ApplyAll(d, mutations), k) == mutations[i].document
  {
    if mutations != [] {
      var n := |mutations| - 1;
      var rest := mutations[..n];
      ApplyAllAt(d, rest, k);
      if !Names(mutations, k) {
        forall i | 0 <= i < n ensures rest[i].key != k {
          assert mutations[i].key != k;
        }
      }
      forall i | 0 <= i < |mutations| && mutations[i].key == k ensures Get(ApplyAll(d, mutations), k) == mutations[i].document {
        if i < n {
          assert rest[i] == mutations[i];
        }
      }
    }
  }

  /** The delta holds, for every key written in the window, the document at the end of it. */
  ghost predicate Repairs(mutations: seq<Mutation>, initial: Database, history: seq<Op>, from: nat, end: nat)
    requires end <= |history|
  {
    && DistinctKeys(mutations)
    && (forall i :: 0 <= i < |mutations| ==> mutations[i].document == Get(At(initial, history, end), mutations[i].key))
    && (forall k :: Names(mutations, k) <==> Writes(history, k, from, end))
  }

  lemma SameDatabase(a: Database, b: Database)
    requires forall k :: Get(a, k) == Get(b, k)
    ensures a == b
  {
    forall k ensures k in a <==> k in b {
      assert Get(a, k) == Get(b, k);
    }
    forall k | k in a && k in b ensures a[k] == b[k] {
      assert Get(a, k) == Get(b, k);
    }
  }

  lemma PermutedNames(a: seq<Mutation>, b: seq<Mutation>, k: Key)
    requires multiset(a) == multiset(b) && Names(a, k)
    ensures Names(b, k)
  {
    var i :| 0 <= i < |a| && a[i].key == k;
    assert a[i] in multiset(a) && a[i] in multiset(b);
    var j :| 0 <= j < |b| && b[j] == a[i];
    assert b[j].key == k;
  }

  /** The main result: whatever each document's reading position was, and in whatever order the
      mutations are applied, base plus delta is the source at the end of the window. */
  lemma DumpPlusDeltaIsSource(base: Database, mutations: seq<Mutation>, order: seq<Mutation>,
                              initial: Database, history: seq<Op>, start: nat, end: nat)
    requires start <= end <= |history| && NoneScoped(history, start, end)
    requires FuzzyDump(base, initial, history, start, end)
    requires Repairs(mutations, initial, history, start, end)
    requires DistinctKeys(order) && multiset(order) == multiset(mutations)
    ensures ApplyAll(base, order) == At(initial, history, end)
  {
    var final := At(initial, history, end);
    forall k ensures Get(ApplyAll(base, order), k) == Get(final, k) {
      ApplyAllAt(base, order, k);
      if Names(order, k) {
        var i :| 0 <= i < |order| && order[i].key == k;
        assert order[i] in multiset(order) && order[i] in multiset(mutations);
        var j :| 0 <= j < |mutations| && mutations[j] == order[i];
      } else {
        if Names(mutations, k) {
          PermutedNames(mutations, order, k);
        }
        assert ReadSometime(base, initial, history, start, end, k);
        var t: nat :| start <= t <= end && Get(base, k) == Get(At(initial, history, t), k);
        UnwrittenSuffix(history, k, start, t, end);
        UnwrittenUnchanged(initial, history, k, t, end);
      }
    }
    SameDatabase(ApplyAll(base, order), final);
  }

  lemma UnwrittenSuffix(history: seq<Op>, k: Key, start: nat, t: nat, end: nat)
    requires start <= t <= end <= |history| && NoneScoped(history, start, end) && !Writes(history, k, start, end)
    ensures NoneScoped(history, t, end) && !Writes(history, k, t, end)
  {
  }

  // ---------------------------------------------------------------------------------------
  // Validation

  predicate ValidMutation(m: Mutation, validCollection: string -> bool) {
    validCollection(m.key.collection) && (m.document.Some? ==> m.document.value.id == m.key.id)
  }

  method ValidateDelta(mutations: seq<Mutation>, validCollection: string -> bool) returns (ok: bool)
    ensures ok <==>
      && |mutations| <= MAXIMUM_ITEMS && DistinctKeys(mutations)
      && forall i :: 0 <= i < |mutations| ==> ValidMutation(mutations[i], validCollection)
  {
    if |mutations| > MAXIMUM_ITEMS {
      return false;
    }
    var seen: set<Key> := {};
    for n := 0 to |mutations|
      invariant forall i :: 0 <= i < n ==> mutations[i].key in seen && ValidMutation(mutations[i], validCollection)
      invariant forall k :: k in seen ==> exists i :: 0 <= i < n && mutations[i].key == k
      invariant forall i, j :: 0 <= i < j < n ==> mutations[i].key != mutations[j].key
    {
      if !ValidMutation(mutations[n], validCollection) || mutations[n].key in seen {
        return false;
      }
      seen := seen + {mutations[n].key};
    }
    ok := true;
  }

  // ---------------------------------------------------------------------------------------
  // The capture

  /** The capture.  The oplog is capped: `head` is its oldest entry when the roll-over check reads it,
      `headAtQuery` when the window is read, `headAtCheck` when the final check looks, at position
      `checked`, for anything after the window; `end` is the end of the window.  Each named document
      is read at a position that `readAt` gives. */
  method CaptureDelta(initial: Database, history: seq<Op>, start: nat, head: nat, headAtQuery: nat, end: nat,
                      readAt: Key -> nat, headAtCheck: nat, checked: nat, validCollection: string -> bool)
    returns (r: Option<seq<Mutation>>)
    requires 0 < start <= end <= checked <= |history|
    requires forall k :: end <= readAt(k) <= checked
    // Success is exactly the absence of the four errors of the capture and of those of the validation.
    ensures r.Some? <==> Captures(initial, history, start, head, headAtQuery, end, readAt, headAtCheck, checked, validCollection)
    ensures r.Some? ==> Reads(r.value, initial, history, WindowStart(start, headAtQuery, end), end, readAt)
  {
    if head > start - 1 {
      return None;
    }
    var from := WindowStart(start, headAtQuery, end);
    if end - from > MAXIMUM_ITEMS {
      return None;
    }
    var changed: set<Key> := {};
    var unsupported := false;
    for i := from to end
      invariant unsupported <==> !NoneScoped(history, from, i)
      invariant forall k :: k in changed <==> Writes(history, k, from, i)
      invariant |changed| <= i - from
    {
      if history[i].Scoped? {
        unsupported := true;
      } else if history[i].Write? {
        changed := changed + {history[i].key};
      }
      forall k ensures k in changed <==> Writes(history, k, from, i + 1) {
        WritesExtends(history, k, from, i);
      }
    }
    if unsupported {
      return None;
    }
    var mutations := [];
    var rest := changed;
    while rest != {}
      invariant rest <= changed && |mutations| + |rest| == |changed|
      invariant DistinctKeys(mutations)
      invariant forall i :: 0 <= i < |mutations| ==>
        mutations[i].key !in rest && mutations[i].document == Get(At(initial, history, readAt(mutations[i].key)), mutations[i].key)
      invariant forall k :: Names(mutations, k) <==> k in changed && k !in rest
      decreases rest
    {
      var k :| k in rest;
      var m := Mutation(k, Get(At(initial, history, readAt(k)), k));
      NamesExtends(mutations, m);
      mutations := mutations + [m];
      rest := rest - {k};
    }
    if exists i :: end <= i < checked && headAtCheck <= i && !history[i].Foreign? {
      return None;
    }
    ValidIffWindowValid(mutations, initial, history, from, end, readAt, validCollection);
    var valid := ValidateDelta(mutations, validCollection);
    r := if valid then Some(mutations) else None;
  }

  /** The window has not rolled over when that is checked, is small and supported as far as the query
      finds it, is followed by nothing that the final check finds, and its documents are valid. */
  ghost predicate Captures(initial: Database, history: seq<Op>, start: nat, head: nat, headAtQuery: nat, end: nat,
                           readAt: Key -> nat, headAtCheck: nat, checked: nat, validCollection: string -> bool)
    requires start <= end <= checked <= |history| && forall k :: readAt(k) <= |history|
  {
    var from := WindowStart(start, headAtQuery, end);
    && head <= start - 1 && end - from <= MAXIMUM_ITEMS && NoneScoped(history, from, end)
    && SeenQuiet(history, headAtCheck, end, checked)
    && WindowValid(initial, history, from, end, readAt, validCollection)
  }

  /** Where the entries begin that the query still finds. */
  function WindowStart(start: nat, headAtQuery: nat, end: nat): nat
  {
    if headAtQuery <= start then start else if headAtQuery <= end then headAtQuery else end
  }

  /** Every entry after the window that the capped oplog still holds is foreign. */
  predicate SeenQuiet(history: seq<Op>, head: nat, end: nat, to: nat)
    requires to <= |history|
  {
    forall i :: end <= i < to && head <= i ==> history[i].Foreign?
  }

  /** The delta holds, for every key written in the window, the document as it was read. */
  ghost predicate Reads(mutations: seq<Mutation>, initial: Database, history: seq<Op>, from: nat, end: nat, readAt: Key -> nat)
    requires end <= |history| && forall k :: readAt(k) <= |history|
  {
    && DistinctKeys(mutations)
    && (forall i :: 0 <= i < |mutations| ==>
          mutations[i].document == Get(At(initial, history, readAt(mutations[i].key)), mutations[i].key))
    && (forall k :: Names(mutations, k) <==> Writes(history, k, from, end))
  }

  /** While nothing after the window has fallen off before the final check, what was read is what
      stood at its end. */
  lemma ReadsRepair(mutations: seq<Mutation>, initial: Database, history: seq<Op>, from: nat, end: nat,
                    readAt: Key -> nat, headAtCheck: nat, checked: nat)
    requires end <= checked <= |history| && forall k :: end <= readAt(k) <= checked
    requires Reads(mutations, initial, history, from, end, readAt) && SeenQuiet(history, headAtCheck, end, checked)
    requires headAtCheck <= end
    ensures Repairs(mutations, initial, history, from, end)
  {
    forall i | 0 <= i < |mutations| ensures mutations[i].document == Get(At(initial, history, end), mutations[i].key) {
      QuietUnchanged(initial, history, end, readAt(mutations[i].key));
    }
  }

  /** Every document written in the window is in a valid collection and, as read, under its own
      identity. */
  ghost predicate WindowValid(initial: Database, history: seq<Op>, from: nat, end: nat, readAt: Key -> nat, validCollection: string -> bool)
    requires end <= |history| && forall k :: readAt(k) <= |history|
  {
    forall k :: Writes(history, k, from, end) ==> ValidMutation(Mutation(k, Get(At(initial, history, readAt(k)), k)), validCollection)
  }

  lemma ValidIffWindowValid(mutations: seq<Mutation>, initial: Database, history: seq<Op>, from: nat, end: nat,
                            readAt: Key -> nat, validCollection: string -> bool)
    requires end <= |history| && forall k :: readAt(k) <= |history|
    requires Reads(mutations, initial, history, from, end, readAt)
    ensures WindowValid(initial, history, from, end, readAt, validCollection)
       <==> forall i :: 0 <= i < |mutations| ==> ValidMutation(mutations[i], validCollection)
  {
    if WindowValid(initial, history, from, end, readAt, validCollection) {
      forall i | 0 <= i < |mutations| ensures ValidMutation(mutations[i], validCollection) {
        var k := mutations[i].key;
        assert Names(mutations, k);
        assert mutations[i] == Mutation(k, Get(At(initial, history, readAt(k)), k));
      }
    } else {
      var k :| Writes(history, k, from, end) && !ValidMutation(Mutation(k, Get(At(initial, history, readAt(k)), k)), validCollection);
      assert Names(mutations, k);
      var i :| 0 <= i < |mutations| && mutations[i].key == k;
      assert mutations[i] == Mutation(k, Get(At(initial, history, readAt(k)), k));
    }
  }

  lemma WritesExtends(history: seq<Op>, k: Key, from: nat, i: nat)
    requires from <= i < |history|
    ensures Writes(history, k, from, i + 1) <==> Writes(history, k, from, i) || (history[i].Write? && history[i].key == k)
  {
    if Writes(history, k, from, i + 1) {
      var j :| from <= j < i + 1 && history[j].Write? && history[j].key == k;
    }
  }

  lemma NamesExtends(mutations: seq<Mutation>, m: Mutation)
    ensures forall k :: Names(mutations + [m], k) <==> Names(mutations, k) || m.key == k
  {
    var all := mutations + [m];
    forall k ensures Names(all, k) <==> Names(mutations, k) || m.key == k {
      if Names(mutations, k) {
        var i :| 0 <= i < |mutations| && mutations[i].key == k;
        assert all[i].key == k;
      }
      if m.key == k {
        assert all[|mutations|].key == k;
      }
    }
  }

  // ---------------------------------------------------------------------------------------
  // Entries that fall off the capped oplog: before the query, and after the window before a check

  /** The entry changes the document: a write its own, an unsupported operation perhaps any. */
  predicate Changes(initial: Database, history: seq<Op>, i: nat, k: Key)
    requires i < |history|
  {
    Get(At(initial, history, i), k) != Get(At(initial, history, i + 1), k)
  }

  /** Every document that a lost entry changed is written again in what is left of the window. */
  ghost predicate LostRewritten(initial: Database, history: seq<Op>, start: nat, from: nat, end: nat)
    requires from <= |history| && end <= |history|
  {
    forall i: nat, k :: start <= i < from && Changes(initial, history, i, k) ==> Writes(history, k, from, end)
  }

  /** The position from which a document is taken: as read if the window names it, else the end. */
  function TakenAt(history: seq<Op>, from: nat, end: nat, readAt: Key -> nat, k: Key): nat
    requires end <= |history|
  {
    if Writes(history, k, from, end) then readAt(k) else end
  }

  /** Every document that an unseen entry changed after it was taken has its value back at `now`. */
  ghost predicate LaterRestored(initial: Database, history: seq<Op>, from: nat, end: nat, readAt: Key -> nat, headAtStable: nat, now: nat)
    requires end <= |history| && now <= |history| && forall k :: readAt(k) <= |history|
  {
    forall i: nat, k ::
      TakenAt(history, from, end, readAt, k) <= i < now && i < headAtStable && Changes(initial, history, i, k)
      ==> Get(At(initial, history, TakenAt(history, from, end, readAt, k)), k) == Get(At(initial, history, now), k)
  }

  lemma {:induction false} UnchangedThrough(initial: Database, history: seq<Op>, k: Key, t: nat, to: nat)
    requires t <= to <= |history| && forall i: nat :: t <= i < to ==> !Changes(initial, history, i, k)
    ensures Get(At(initial, history, t), k) == Get(At(initial, history, to), k)
  {
    if t < to {
      UnchangedThrough(initial, history, k, t, to - 1);
      assert !Changes(initial, history, to - 1, k);
    }
  }

  /** With the stability check passed, the later entries restore everything exactly when each document
      stands at `now` as it was taken. */
  lemma RestoredIff(initial: Database, history: seq<Op>, from: nat, end: nat, readAt: Key -> nat, headAtStable: nat, now: nat)
    requires end <= now <= |history| && forall k :: end <= readAt(k) <= now
    requires SeenQuiet(history, headAtStable, end, now)
    ensures LaterRestored(initial, history, from, end, readAt, headAtStable, now)
       <==> forall k :: Get(At(initial, history, TakenAt(history, from, end, readAt, k)), k) == Get(At(initial, history, now), k)
  {
    if LaterRestored(initial, history, from, end, readAt, headAtStable, now) {
      forall k ensures Get(At(initial, history, TakenAt(history, from, end, readAt, k)), k) == Get(At(initial, history, now), k) {
        var t := TakenAt(history, from, end, readAt, k);
        if forall i: nat :: t <= i < now ==> !Changes(initial, history, i, k) {
          UnchangedThrough(initial, history, k, t, now);
        } else {
          var i: nat :| t <= i < now && Changes(initial, history, i, k);
          assert !history[i].Foreign?;
        }
      }
    }
  }

  /** The stability check alone: the source stands as at the end of the window exactly when what the
      entries that fell off changed is restored. */
  lemma StableAfterIff(initial: Database, history: seq<Op>, end: nat, headAtStable: nat, now: nat)
    requires end <= now <= |history| && SeenQuiet(history, headAtStable, end, now)
    ensures At(initial, history, now) == At(initial, history, end)
       <==> LaterRestored(initial, history, end, end, _ => end, headAtStable, now)
  {
    RestoredIff(initial, history, end, end, _ => end, headAtStable, now);
    if LaterRestored(initial, history, end, end, _ => end, headAtStable, now) {
      SameDatabase(At(initial, history, now), At(initial, history, end));
    }
  }

  /** A document that is not written in the window was the same at every position of the dump. */
  lemma UnnamedIsSettled(initial: Database, history: seq<Op>, start: nat, from: nat, end: nat, k: Key, t: nat)
    requires start <= from <= end <= |history| && start <= t <= end && NoneScoped(history, from, end)
    requires LostRewritten(initial, history, start, from, end) && !Writes(history, k, from, end)
    ensures Get(At(initial, history, t), k) == Get(At(initial, history, end), k)
  {
    if t < from {
      UnchangedThrough(initial, history, k, t, from);
      UnwrittenUnchanged(initial, history, k, from, end);
    } else {
      UnwrittenSuffix(history, k, from, t, end);
      UnwrittenUnchanged(initial, history, k, t, end);
    }
  }

  /** Every dump, with the delta applied, is the source as it stands at `now`, exactly when each document
      changed by an entry lost before the query is written again in the window, and each document
      changed by an entry unseen by the last check has the value back with which it was taken. */
  lemma EveryDumpRepairedIff(mutations: seq<Mutation>, initial: Database, history: seq<Op>, start: nat, from: nat, end: nat,
                             readAt: Key -> nat, headAtStable: nat, now: nat)
    requires start <= from <= end <= now <= |history| && NoneScoped(history, from, end)
    requires forall k :: end <= readAt(k) <= now
    requires Reads(mutations, initial, history, from, end, readAt) && SeenQuiet(history, headAtStable, end, now)
    ensures (forall base :: FuzzyDump(base, initial, history, start, end) ==> ApplyAll(base, mutations) == At(initial, history, now))
       <==> LostRewritten(initial, history, start, from, end)
            && LaterRestored(initial, history, from, end, readAt, headAtStable, now)
  {
    var final := At(initial, history, now);
    RestoredIff(initial, history, from, end, readAt, headAtStable, now);
    if !LostRewritten(initial, history, start, from, end) {
      var i: nat, k :| start <= i < from && Changes(initial, history, i, k) && !Writes(history, k, from, end);
      var base := LostEntryDump(mutations, initial, history, start, from, end, readAt, i, k, final);
      assert FuzzyDump(base, initial, history, start, end) && ApplyAll(base, mutations) != final;
    } else if !LaterRestored(initial, history, from, end, readAt, headAtStable, now) {
      var k :| Get(At(initial, history, TakenAt(history, from, end, readAt, k)), k) != Get(final, k);
      var base := At(initial, history, end);
      UnrestoredDump(mutations, initial, history, start, from, end, readAt, k, final);
      assert FuzzyDump(base, initial, history, start, end) && ApplyAll(base, mutations) != final;
    } else {
      forall base | FuzzyDump(base, initial, history, start, end) ensures ApplyAll(base, mutations) == final {
        RepairedDump(base, mutations, initial, history, start, from, end, readAt, final);
      }
    }
  }

  lemma RepairedDump(base: Database, mutations: seq<Mutation>, initial: Database, history: seq<Op>, start: nat, from: nat, end: nat,
                     readAt: Key -> nat, final: Database)
    requires start <= from <= end <= |history| && NoneScoped(history, from, end) && forall k :: readAt(k) <= |history|
    requires Reads(mutations, initial, history, from, end, readAt) && LostRewritten(initial, history, start, from, end)
    requires forall k :: Get(At(initial, history, TakenAt(history, from, end, readAt, k)), k) == Get(final, k)
    requires FuzzyDump(base, initial, history, start, end)
    ensures ApplyAll(base, mutations) == final
  {
    forall k ensures Get(ApplyAll(base, mutations), k) == Get(final, k) {
      ApplyAllAt(base, mutations, k);
      assert Get(At(initial, history, TakenAt(history, from, end, readAt, k)), k) == Get(final, k);
      if Names(mutations, k) {
        var i :| 0 <= i < |mutations| && mutations[i].key == k;
      } else {
        assert ReadSometime(base, initial, history, start, end, k);
        var t: nat :| start <= t <= end && Get(base, k) == Get(At(initial, history, t), k);
        UnnamedIsSettled(initial, history, start, from, end, k, t);
      }
    }
    SameDatabase(ApplyAll(base, mutations), final);
  }

  /** A dump that an entry lost before the query spoils, whatever the database is to be. */
  lemma LostEntryDump(mutations: seq<Mutation>, initial: Database, history: seq<Op>, start: nat, from: nat, end: nat,
                      readAt: Key -> nat, i: nat, k: Key, final: Database)
    returns (base: Database)
    requires start <= i < from <= end <= |history| && forall k :: readAt(k) <= |history|
    requires Reads(mutations, initial, history, from, end, readAt)
    requires Changes(initial, history, i, k) && !Writes(history, k, from, end)
    ensures FuzzyDump(base, initial, history, start, end) && ApplyAll(base, mutations) != final
  {
    var t := if Get(At(initial, history, i), k) != Get(final, k) then i else i + 1;
    base := Put(At(initial, history, end), k, Get(At(initial, history, t), k));
    forall q ensures ReadSometime(base, initial, history, start, end, q) {
      assert Get(base, q) == Get(At(initial, history, if q == k then t else end), q);
    }
    assert !Names(mutations, k);
    ApplyAllAt(base, mutations, k);
  }

  /** A dump taken at the end of the window that a later entry spoils. */
  lemma UnrestoredDump(mutations: seq<Mutation>, initial: Database, history: seq<Op>, start: nat, from: nat, end: nat,
                       readAt: Key -> nat, k: Key, final: Database)
    requires start <= end <= |history| && forall k :: readAt(k) <= |history|
    requires Reads(mutations, initial, history, from, end, readAt)
    requires Get(At(initial, history, TakenAt(history, from, end, readAt, k)), k) != Get(final, k)
    ensures FuzzyDump(At(initial, history, end), initial, history, start, end)
    ensures ApplyAll(At(initial, history, end), mutations) != final
  {
    var base := At(initial, history, end);
    forall q ensures ReadSometime(base, initial, history, start, end, q) {
      assert Get(base, q) == Get(At(initial, history, end), q);
    }
    ApplyAllAt(base, mutations, k);
    if Names(mutations, k) {
      var i :| 0 <= i < |mutations| && mutations[i].key == k;
    }
  }

  /** While no entry after the window has fallen off before the last check, nothing is unseen. */
  lemma NothingUnseen(initial: Database, history: seq<Op>, from: nat, end: nat, readAt: Key -> nat, headAtStable: nat, now: nat)
    requires end <= now <= |history| && (forall k :: end <= readAt(k) <= now) && headAtStable <= end
    ensures LaterRestored(initial, history, from, end, readAt, headAtStable, now)
  {
  }

  lemma CommandChanges(history: seq<Op>, k: Key, d: Doc)
    requires |history| >= 2 && history[0] == Foreign && history[1] == Scoped(map[k := d])
    ensures Changes(map[], history, 1, k)
  {
    assert At(map[], history, 0) == map[];
    assert Get(At(map[], history, 1), k) == None;
    assert Get(At(map[], history, 2), k) == Some(d);
  }

  /** A lost command: the capture succeeds with nothing to apply, and a dump stays wrong. */
  method LostCommandRun(k: Key, d: Doc) returns (delta: Option<seq<Mutation>>, ghost base: Database)
    ensures delta == Some([])
    ensures var history := [Foreign, Scoped(map[k := d]), Foreign];
            FuzzyDump(base, map[], history, 1, 3) && ApplyAll(base, []) != At(map[], history, 3)
  {
    var history := [Foreign, Scoped(map[k := d]), Foreign];
    delta := CaptureDelta(map[], history, 1, 0, 2, 3, _ => 3, 0, 3, _ => true);
    CommandChanges(history, k, d);
    if delta.value != [] {
      assert Names(delta.value, delta.value[0].key);
    }
    base := LostEntryDump([], map[], history, 1, 2, 3, _ => 3, 1, k, At(map[], history, 3));
  }

  // ---------------------------------------------------------------------------------------
  // Application

  /** Each mutation deletes or replaces one document. */
  method ApplyDelta(target: Database, mutations: seq<Mutation>) returns (r: Database, applied: nat)
    ensures r == ApplyAll(target, mutations) && applied == |mutations|
  {
    r, applied := target, 0;
    for i := 0 to |mutations|
      invariant r == ApplyAll(target, mutations[..i]) && applied == i
    {
      assert mutations[..i + 1][..i] == mutations[..i];
      var m := mutations[i];
      if m.document.None? {
        r := r - {m.key};
      } else {
        r := r[m.key := m.document.value];
      }
      applied := applied + 1;
    }
    assert mutations[..|mutations|] == mutations;
  }

  /** The whole dump, in the order of mongodbDump: start captured, documents dumped, delta captured,
      the database inspected, stability verified at `now`, then restored elsewhere.  The target is the
      source as it stands, for every dump, exactly under the condition of EveryDumpRepairedIff; nothing
      falling off before the two queries that matter is enough. */
  method DumpAndRestore(initial: Database, history: seq<Op>, start: nat, head: nat, headAtQuery: nat, end: nat, base: Database,
                        readAt: Key -> nat, headAtCheck: nat, checked: nat, headAtStable: nat, now: nat, validCollection: string -> bool)
    returns (delta: Option<seq<Mutation>>, r: Option<Database>)
    requires 0 < start <= end <= checked <= now <= |history|
    requires forall k :: end <= readAt(k) <= checked
    ensures delta.Some? <==> Captures(initial, history, start, head, headAtQuery, end, readAt, headAtCheck, checked, validCollection)
    ensures delta.Some? ==> Reads(delta.value, initial, history, WindowStart(start, headAtQuery, end), end, readAt)
    ensures r.Some? <==> delta.Some? && SeenQuiet(history, headAtStable, end, now)
    ensures r.Some? ==> r.value == ApplyAll(base, delta.value)
    ensures r.Some? ==>
      ((forall base' :: FuzzyDump(base', initial, history, start, end) ==> ApplyAll(base', delta.value) == At(initial, history, now))
       <==> LostRewritten(initial, history, start, WindowStart(start, headAtQuery, end), end)
            && LaterRestored(initial, history, WindowStart(start, headAtQuery, end), end, readAt, headAtStable, now))
    ensures r.Some? && FuzzyDump(base, initial, history, start, end) && headAtQuery <= start && headAtStable <= end ==>
      r.value == At(initial, history, now)
  {
    delta := CaptureDelta(initial, history, start, head, headAtQuery, end, readAt, headAtCheck, checked, validCollection);
    if delta.None? || (exists i :: end <= i < now && headAtStable <= i && !history[i].Foreign?) {
      return delta, None;
    }
    var from := WindowStart(start, headAtQuery, end);
    EveryDumpRepairedIff(delta.value, initial, history, start, from, end, readAt, headAtStable, now);
    if headAtStable <= end {
      NothingUnseen(initial, history, from, end, readAt, headAtStable, now);
    }
    var target, _ := ApplyDelta(base, delta.value);
    r := Some(target);
  }

  /** A write after the window that has fallen off when the checks look: the dump and the empty delta are
      accepted, and the result is not the source. */
  method UnseenWriteRun(k: Key, d: Doc) returns (delta: Option<seq<Mutation>>, r: Option<Database>)
    ensures var history := [Foreign, Foreign, Write(k, Some(d)), Foreign];
            delta == Some([]) && r == Some(map[]) && FuzzyDump(map[], map[], history, 1, 2) && At(map[], history, 4) != map[]
  {
    var history := [Foreign, Foreign, Write(k, Some(d)), Foreign];
    delta, r := DumpAndRestore(map[], history, 1, 0, 0, 2, map[], _ => 2, 3, 4, 3, 4, _ => true);
    LateWrite(history, k, d);
    if delta.value != [] {
      assert Names(delta.value, delta.value[0].key);
    }
  }

  lemma LateWrite(history: seq<Op>, k: Key, d: Doc)
    requires history == [Foreign, Foreign, Write(k, Some(d)), Foreign]
    ensures FuzzyDump(map[], map[], history, 1, 2) && k in At(map[], history, 4)
  {
    assert At(map[], history, 0) == map[] && At(map[], history, 1) == map[];
    forall q ensures ReadSometime(map[], map[], history, 1, 2, q) {
      assert Get(map[], q) == Get(At(map[], history, 1), q);
    }
    assert Get(At(map[], history, 3), k) == Some(d);
    assert At(map[], history, 4) == At(map[], history, 3);
  }
}
