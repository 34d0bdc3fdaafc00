/** Finalising a PostgreSQL logical replication on the target: catch up with the fenced source, set
    the sequences, compare the manifest, detach the slot, drop the subscription, each step under a
    durable marker so that the whole can be run again after a stop anywhere.

    Each change appends the state it leaves to `log` together with who made it. */
module PostgresFinalize {
  import opened Wrappers
  import opened Bytes
  import opened Int64

  // ---------------------------------------------------------------------------------------
  // Values

  type Rows = seq<string>

  datatype SequenceId = SequenceId(schema: ByteString, name: ByteString)

  datatype Counter = Counter(last: int, called: bool)

  /** What an inspection covers; its digest being injective, it also stands for the digest. */
  datatype Data = Data(rows: Rows, sequences: map<SequenceId, Counter>)

  datatype Sequence = Sequence(id: SequenceId, last: string, called: bool)

  datatype Names = Names(publication: string, slot: string, subscription: string)

  datatype FinalState = FinalState(
    migration: string, plan: string, sourceDatabase: string, targetDatabase: string, names: Names,
    schema: string, manifest: Data, finalLsn: nat, sequences: seq<Sequence>)

  datatype Status = SchemaRestored | SubscriptionCreated | Replicating | CleanupPending | Finalized | Cleaned

  datatype Marker = Marker(
    migration: string, plan: string, role: string, databaseBinding: string, logicalBinding: string,
    database: string, names: Names, schema: string, publication: string, subscription: string,
    status: Status, finalState: Option<FinalState>)

  /** What one call is about, with the definitions that its bindings call for. */
  datatype Task = Task(
    migration: string, plan: string, databaseBinding: string, logicalBinding: string, database: string,
    sourceDatabase: string, targetDatabase: string, names: Names, publication: string, subscription: string)

  datatype Subscription = Subscription(enabled: bool, slot: string, definition: string)

  datatype World = World(
    marker: Option<Marker>, subscription: Option<Subscription>, rows: Rows, applied: nat,
    sequences: map<SequenceId, Counter>, working: bool)

  function Inspected(w: World): Data {
    Data(w.rows, w.sequences)
  }

  // ---------------------------------------------------------------------------------------
  // The final-state contract

  function Identity(id: SequenceId): ByteString {
    id.schema + [0] + id.name
  }

  predicate ValidIdentifier(s: ByteString) {
    0 < |s| <= 63 && 0 !in s && 9 !in s && 10 !in s && 13 !in s
  }

  predicate AllDigits(s: string) {
    forall i :: 0 <= i < |s| ==> '0' <= s[i] <= '9'
  }

  function Natural(s: string): nat
    requires AllDigits(s)
  {
    if s == "" then 0 else 10 * Natural(s[..|s| - 1]) + (s[|s| - 1] - '0') as nat
  }

  /** A decimal 64-bit integer with an optional sign. */
  function ParseInt64(s: string): Option<int> {
    var signed := s != "" && (s[0] == '-' || s[0] == '+');
    var digits := if signed then s[1..] else s;
    if digits == "" || !AllDigits(digits) then None
    else
      var n: int := if signed && s[0] == '-' then 0 - Natural(digits) else Natural(digits);
      if IsInt64(n) then Some(n) else None
  }

  /** Decimal digits without leading zeros. */
  function Digits(n: nat): string {
    if n < 10 then [Digit(n)] else Digits(n / 10) + [Digit(n % 10)]
  }

  function Digit(n: nat): char
    requires n < 10
  {
    "0123456789"[n]
  }

  /** How an integer is printed. */
  function Decimal(n: int): string {
    if n < 0 then "-" + Digits(-n) else Digits(n)
  }

  function Zeros(k: nat): string {
    seq(k, _ => '0')
  }

  lemma {:induction false} DigitsDenote(n: nat)
    ensures Digits(n) != "" && AllDigits(Digits(n)) && Natural(Digits(n)) == n
  {
    assert forall d :: 0 <= d < 10 ==> '0' <= Digit(d) <= '9' && (Digit(d) - '0') as nat == d;
    if n >= 10 {
      DigitsDenote(n / 10);
      var s := Digits(n);
      assert s[..|s| - 1] == Digits(n / 10);
    } else {
      assert Digits(n)[..0] == "";
    }
  }

  lemma ParseUnsigned(d: string, m: nat)
    requires d != "" && AllDigits(d) && Natural(d) == m
    ensures ParseInt64(d) == if IsInt64(m) then Some(m) else None
  {
    assert '0' <= d[0] <= '9';
  }

  lemma ParseNegative(d: string, m: nat)
    requires d != "" && AllDigits(d) && Natural(d) == m
    ensures ParseInt64("-" + d) == if IsInt64(0 - m) then Some(0 - m) else None
  {
    assert ("-" + d)[1..] == d;
  }

  /** Printing and parsing: every 64-bit integer is read back as it was printed, any other is refused. */
  lemma DecimalParses(n: int)
    ensures ParseInt64(Decimal(n)) == if IsInt64(n) then Some(n) else None
  {
    if n < 0 {
      DigitsDenote(-n);
      ParseNegative(Digits(-n), -n);
    } else {
      DigitsDenote(n);
      ParseUnsigned(Digits(n), n);
    }
  }

  lemma DigitOf(c: char)
    requires '0' <= c <= '9'
    ensures (c - '0') as nat < 10 && Digit((c - '0') as nat) == c
  {
  }

  /** The digits are those of the number, after zeros. */
  predicate Pads(s: string, k: nat, m: nat) {
    s == Zeros(k) + Digits(m)
  }

  lemma OneDigitMore(head: string, k: nat, m: nat, d: nat)
    requires Pads(head, k, m) && d < 10
    ensures Pads(head + [Digit(d)], if m == 0 then k + 1 else k, 10 * m + d)
  {
    if m == 0 {
      assert Digits(0) == "0" && head == Zeros(k + 1);
    } else {
      assert (10 * m + d) / 10 == m && (10 * m + d) % 10 == d;
      assert Digits(10 * m + d) == Digits(m) + [Digit(d)];
      assert Zeros(k) + Digits(m) + [Digit(d)] == Zeros(k) + (Digits(m) + [Digit(d)]);
    }
  }

  lemma NaturalStep(s: string)
    requires AllDigits(s) && s != ""
    ensures Natural(s) == 10 * Natural(s[..|s| - 1]) + (s[|s| - 1] - '0') as nat
  {
  }

  lemma OneDigit(s: string)
    requires AllDigits(s) && |s| == 1
    ensures Pads(s, 0, Natural(s))
  {
    var d := (s[0] - '0') as nat;
    DigitOf(s[0]);
    NaturalOfOne(s);
    PrintedDigit(d);
    assert s == [Digit(d)];
  }

  lemma NaturalOfOne(s: string)
    requires AllDigits(s) && |s| == 1
    ensures Natural(s) == (s[0] - '0') as nat
  {
    assert s[..0] == "";
  }

  lemma PrintedDigit(d: nat)
    requires d < 10
    ensures Pads([Digit(d)], 0, d)
  {
    assert Zeros(0) == "";
  }

  lemma PadsOneMore(s: string, k: nat, h: nat)
    requires AllDigits(s) && |s| > 1 && Pads(s[..|s| - 1], k, h)
    ensures var m := 10 * h + (s[|s| - 1] - '0') as nat; Pads(s, if h == 0 then k + 1 else k, m)
  {
    var n := |s| - 1;
    var d := (s[n] - '0') as nat;
    DigitOf(s[n]);
    assert s == s[..n] + [Digit(d)];
    OneDigitMore(s[..n], k, h, d);
  }

  /** Digits are, but for leading zeros, the printed number that they denote. */
  lemma {:induction false} DigitsPadded(s: string) returns (k: nat)
    requires AllDigits(s) && s != ""
    ensures Pads(s, k, Natural(s))
    decreases |s|
  {
    if |s| == 1 {
      OneDigit(s);
      k := 0;
    } else {
      var h := Natural(s[..|s| - 1]);
      k := DigitsPadded(s[..|s| - 1]);
      PadsOneMore(s, k, h);
      NaturalStep(s);
      k := if h == 0 then k + 1 else k;
    }
  }

  /** Exactly the numerals that are accepted: an optional sign and the printed magnitude, possibly
      after zeros, of a 64-bit integer. */
  lemma ParsedIsPrinted(s: string, n: int) returns (sign: string, k: nat, m: nat)
    requires ParseInt64(s) == Some(n)
    ensures IsInt64(n) && s == sign + (Zeros(k) + Digits(m))
    ensures if sign == "-" then n == 0 - m else n == m && (sign == "" || sign == "+")
  {
    var digits;
    sign, digits := SignAndDigits(s, n);
    m := Natural(digits);
    k := DigitsPadded(digits);
  }

  lemma SignAndDigits(s: string, n: int) returns (sign: string, digits: string)
    requires ParseInt64(s) == Some(n)
    ensures IsInt64(n) && s == sign + digits && digits != "" && AllDigits(digits)
    ensures if sign == "-" then n == 0 - Natural(digits) else n == Natural(digits) && (sign == "" || sign == "+")
  {
    if s[0] == '-' || s[0] == '+' {
      sign, digits := [s[0]], s[1..];
    } else {
      sign, digits := "", s;
    }
  }

  predicate ValidSequence(s: Sequence) {
    ValidIdentifier(s.id.schema) && ValidIdentifier(s.id.name) && ParseInt64(s.last).Some?
  }

  function Identities(s: seq<Sequence>): (r: seq<ByteString>)
    ensures |r| == |s| && forall i :: 0 <= i < |s| ==> r[i] == Identity(s[i].id)
  {
    seq(|s|, i requires 0 <= i < |s| => Identity(s[i].id))
  }

  predicate Contract(st: FinalState, task: Task) {
    && st.migration == task.migration && st.plan == task.plan && st.sourceDatabase == task.sourceDatabase
    && st.targetDatabase == task.targetDatabase && st.names == task.names && |st.sequences| <= 4096
  }

  /** Every listed sequence is well formed, and each is listed once, in the order of the names. */
  predicate ValidFinalState(st: FinalState, task: Task) {
    && Contract(st, task)
    && (forall i :: 0 <= i < |st.sequences| ==> ValidSequence(st.sequences[i]))
    && Ascending(Identities(st.sequences))
  }

  /** Identifiers hold no zero byte, so the joined name tells the schema from the name. */
  lemma {:induction false} IdentityInjective(a: SequenceId, b: SequenceId)
    requires ValidIdentifier(a.schema) && ValidIdentifier(b.schema) && Identity(a) == Identity(b)
    ensures a == b
  {
    var n, m := |a.schema|, |b.schema|;
    assert Identity(a)[n] == 0 && Identity(b)[m] == 0;
    assert n == m;
    assert a.schema == Identity(a)[..n] && b.schema == Identity(b)[..n];
    assert a.name == Identity(a)[n + 1..] && b.name == Identity(b)[n + 1..];
  }

  /** The source sorts its sequences by joined name: a sorted list without repetition is accepted. */
  lemma SortedCaptureAccepted(st: FinalState, task: Task)
    requires Contract(st, task) && (forall i :: 0 <= i < |st.sequences| ==> ValidSequence(st.sequences[i]))
    requires forall i, j :: 0 <= i < j < |st.sequences| ==> st.sequences[i].id != st.sequences[j].id
    requires forall i, j :: 0 <= i < j < |st.sequences| ==> !Less(Identity(st.sequences[j].id), Identity(st.sequences[i].id))
    ensures ValidFinalState(st, task)
  {
    var s := st.sequences;
    forall i, j | 0 <= i < j < |s| ensures Less(Identities(s)[i], Identities(s)[j]) {
      LessTotal(Identity(s[i].id), Identity(s[j].id));
      if Identity(s[i].id) == Identity(s[j].id) {
        IdentityInjective(s[i].id, s[j].id);
      }
    }
  }

  lemma ListedOnce(st: FinalState, task: Task, i: nat, j: nat)
    requires ValidFinalState(st, task) && i < j < |st.sequences|
    ensures st.sequences[i].id != st.sequences[j].id
  {
    assert Less(Identities(st.sequences)[i], Identities(st.sequences)[j]);
    LessAsymmetric(Identity(st.sequences[i].id), Identity(st.sequences[j].id));
  }

  function Previous(s: seq<Sequence>, i: nat): ByteString
    requires i <= |s|
  {
    if i == 0 then [] else Identity(s[i - 1].id)
  }

  predicate GoodPrefix(s: seq<Sequence>, i: nat)
    requires i <= |s|
  {
    (forall k :: 0 <= k < i ==> ValidSequence(s[k])) && Ascending(Identities(s)[..i])
  }

  lemma AscendingNext(s: seq<Sequence>, i: nat)
    requires i < |s| && Ascending(Identities(s)[..i])
    ensures Ascending(Identities(s)[..i + 1]) <==> Less(Previous(s, i), Identity(s[i].id))
  {
    var all, x := Identities(s), Identity(s[i].id);
    assert all[..i + 1] == all[..i] + [x];
    LastDecides(all[..i], x);
    assert Previous(s, i) == if i == 0 then [] else all[..i][i - 1];
  }

  /** Comparing each sequence with the one before it is enough. */
  lemma GoodPrefixExtends(s: seq<Sequence>, i: nat)
    requires i < |s| && GoodPrefix(s, i)
    ensures GoodPrefix(s, i + 1) <==> ValidSequence(s[i]) && Less(Previous(s, i), Identity(s[i].id))
  {
    AscendingNext(s, i);
  }

  /** An ascending list extended by one stays ascending exactly when the last two ascend. */
  lemma LastDecides(all: seq<ByteString>, x: ByteString)
    requires Ascending(all) && x != []
    ensures Ascending(all + [x]) <==> Less(if all == [] then [] else all[|all| - 1], x)
  {
    if all == [] || Less(all[|all| - 1], x) {
      AscendingExtends(all, x);
    } else {
      assert (all + [x])[|all| - 1] == all[|all| - 1] && (all + [x])[|all|] == x;
    }
  }

  lemma GoodPrefixOf(s: seq<Sequence>, i: nat)
    requires i <= |s| && GoodPrefix(s, |s|)
    ensures GoodPrefix(s, i)
  {
    assert Identities(s)[..|s|] == Identities(s);
  }

  /** What the loop decides at each sequence. */
  lemma PrefixDecides(s: seq<Sequence>, i: nat)
    requires i < |s| && GoodPrefix(s, i)
    ensures if ValidSequence(s[i]) && Less(Previous(s, i), Identity(s[i].id)) then GoodPrefix(s, i + 1) else !GoodPrefix(s, |s|)
  {
    GoodPrefixExtends(s, i);
    if GoodPrefix(s, |s|) {
      GoodPrefixOf(s, i + 1);
    }
  }

  method ValidateFinalState(st: FinalState, task: Task) returns (ok: bool)
    ensures ok <==> ValidFinalState(st, task)
  {
    if !Contract(st, task) {
      return false;
    }
    var s := st.sequences;
    assert Identities(s)[..|s|] == Identities(s);
    assert ValidFinalState(st, task) <==> GoodPrefix(s, |s|);
    ok := ValidateSequences(s);
  }

  method ValidateSequences(s: seq<Sequence>) returns (ok: bool)
    ensures ok <==> GoodPrefix(s, |s|)
  {
    var previous: ByteString := [];
    ok := true;
    for i := 0 to |s|
      invariant ok && GoodPrefix(s, i) && previous == Previous(s, i)
    {
      var identity := Identity(s[i].id);
      PrefixDecides(s, i);
      if !ValidIdentifier(s[i].id.schema) || !ValidIdentifier(s[i].id.name) || !Less(previous, identity) {
        ok := false;
      } else if ParseInt64(s[i].last).None? {
        ok := false;
      }
      if !ok {
        return;
      }
      previous := identity;
    }
  }

  // ---------------------------------------------------------------------------------------
  // Setting the sequences

  function Value(s: Sequence): Counter {
    Counter(if ParseInt64(s.last).Some? then ParseInt64(s.last).value else 0, s.called)
  }

  /** The counters after every listed sequence was set. */
  function AllSet(m: map<SequenceId, Counter>, s: seq<Sequence>): map<SequenceId, Counter>
    decreases |s|
  {
    if s == [] then m else AllSet(m[s[0].id := Value(s[0])], s[1..])
  }

  predicate Listed(id: SequenceId, s: seq<Sequence>) {
    exists i :: 0 <= i < |s| && s[i].id == id
  }

  predicate AllPresent(m: map<SequenceId, Counter>, s: seq<Sequence>) {
    forall i :: 0 <= i < |s| ==> s[i].id in m
  }

  /** Setting one listed sequence first makes no difference to setting them all. */
  lemma SetOneAgain(m: map<SequenceId, Counter>, s: seq<Sequence>, i: nat)
    requires i < |s| && AllPresent(m, s)
    requires forall i, j :: 0 <= i < j < |s| ==> s[i].id != s[j].id
    ensures AllSet(m[s[i].id := Value(s[i])], s) == AllSet(m, s)
  {
    var m' := m[s[i].id := Value(s[i])];
    forall id ensures id in AllSet(m, s) <==> id in AllSet(m', s)
              ensures id in AllSet(m, s) ==> AllSet(m, s)[id] == AllSet(m', s)[id]
    {
      SetAt(m, s, id);
      SetAt(m', s, id);
    }
  }

  /** A listed sequence ends with its listed value, every other one keeps its own. */
  lemma {:induction false} SetAt(m: map<SequenceId, Counter>, s: seq<Sequence>, id: SequenceId)
    requires forall i, j :: 0 <= i < j < |s| ==> s[i].id != s[j].id
    ensures id in AllSet(m, s) <==> id in m || Listed(id, s)
    ensures !Listed(id, s) && id in m ==> AllSet(m, s)[id] == m[id]
    ensures forall i :: 0 <= i < |s| && s[i].id == id ==> AllSet(m, s)[id] == Value(s[i])
    decreases |s|
  {
    if s != [] {
      var m' := m[s[0].id := Value(s[0])];
      SetAt(m', s[1..], id);
      assert Listed(id, s) <==> id == s[0].id || Listed(id, s[1..]) by {
        if i :| 0 <= i < |s| && s[i].id == id && i > 0 {
          assert s[1..][i - 1].id == id;
        }
        if i :| 0 <= i < |s[1..]| && s[1..][i].id == id {
          assert s[i + 1].id == id;
        }
      }
      forall i | 0 <= i < |s| && s[i].id == id ensures AllSet(m, s)[id] == Value(s[i]) {
        if i == 0 {
          assert !Listed(id, s[1..]);
        } else {
          assert s[1..][i - 1] == s[i];
        }
      }
    }
  }

  /** The counters after `i` of the listed sequences were set, all of them present. */
  predicate SetUpTo(m: map<SequenceId, Counter>, s: seq<Sequence>, i: nat, now: map<SequenceId, Counter>)
    requires i <= |s|
  {
    now == AllSet(m, s[..i]) && now.Keys == m.Keys && AllPresent(m, s[..i])
  }

  lemma SetUpToNext(m: map<SequenceId, Counter>, s: seq<Sequence>, i: nat, now: map<SequenceId, Counter>)
    requires i < |s| && SetUpTo(m, s, i, now) && s[i].id in now
    ensures SetUpTo(m, s, i + 1, now[s[i].id := Value(s[i])])
  {
    SetOneMore(m, s, i);
  }

  lemma SetUpToAll(m: map<SequenceId, Counter>, s: seq<Sequence>, now: map<SequenceId, Counter>)
    requires SetUpTo(m, s, |s|, now)
    ensures now == AllSet(m, s) && AllPresent(m, s)
  {
    assert s[..|s|] == s;
  }

  lemma {:induction false} SetOneMore(m: map<SequenceId, Counter>, s: seq<Sequence>, i: nat)
    requires i < |s|
    ensures AllSet(m, s[..i + 1]) == AllSet(m, s[..i])[s[i].id := Value(s[i])]
    decreases i
  {
    if i > 0 {
      SetOneMore(m[s[0].id := Value(s[0])], s[1..], i - 1);
      assert s[..i + 1][1..] == s[1..][..i] && s[..i][1..] == s[1..][..i - 1];
    } else {
      assert s[..1][1..] == [];
    }
  }

  /** Every listed counter stands at its listed number and flag, every other one as before. */
  predicate SetAsListed(before: map<SequenceId, Counter>, s: seq<Sequence>, now: map<SequenceId, Counter>) {
    && now.Keys == before.Keys
    && (forall i :: 0 <= i < |s| ==>
          s[i].id in now && now[s[i].id].called == s[i].called && ParseInt64(s[i].last) == Some(now[s[i].id].last))
    && (forall id :: id in before && (forall i :: 0 <= i < |s| ==> s[i].id != id) ==> now[id] == before[id])
  }

  lemma AllSetAsListed(m: map<SequenceId, Counter>, st: FinalState, task: Task)
    requires ValidFinalState(st, task) && AllPresent(m, st.sequences)
    ensures SetAsListed(m, st.sequences, AllSet(m, st.sequences))
  {
    var s := st.sequences;
    forall i, j | 0 <= i < j < |s| ensures s[i].id != s[j].id {
      ListedOnce(st, task, i, j);
    }
    forall id ensures id in AllSet(m, s) <==> id in m {
      SetAt(m, s, id);
    }
    forall i | 0 <= i < |s| ensures s[i].id in m && AllSet(m, s)[s[i].id] == Value(s[i]) && ValidSequence(s[i]) {
      SetAt(m, s, s[i].id);
    }
    forall id | id in m && (forall i :: 0 <= i < |s| ==> s[i].id != id) ensures AllSet(m, s)[id] == m[id] {
      SetAt(m, s, id);
    }
  }

  /** The list names exactly the sequences of the manifest, each with its printed number and flag. */
  predicate ListsManifest(st: FinalState) {
    var m := st.manifest.sequences;
    && (forall i :: 0 <= i < |st.sequences| ==>
          var s := st.sequences[i];
          s.id in m && s.last == Decimal(m[s.id].last) && s.called == m[s.id].called)
    && (forall id :: id in m ==> exists i :: 0 <= i < |st.sequences| && st.sequences[i].id == id)
  }

  lemma SameAsListed(m: map<SequenceId, Counter>, s: seq<Sequence>, now: map<SequenceId, Counter>, want: map<SequenceId, Counter>)
    requires SetAsListed(m, s, now) && m.Keys == want.Keys
    requires forall i :: 0 <= i < |s| ==>
      s[i].id in want && want[s[i].id].called == s[i].called && ParseInt64(s[i].last) == Some(want[s[i].id].last)
    requires forall id :: id in want ==> exists i :: 0 <= i < |s| && s[i].id == id
    ensures now == want
  {
    forall id | id in want ensures now[id] == want[id] {
      var i :| 0 <= i < |s| && s[i].id == id;
    }
  }

  /** Setting the listed sequences of a manifest gives the manifest's sequences. */
  lemma ManifestIsSet(m: map<SequenceId, Counter>, st: FinalState, task: Task)
    requires ValidFinalState(st, task) && ListsManifest(st) && m.Keys == st.manifest.sequences.Keys
    ensures AllPresent(m, st.sequences) && AllSet(m, st.sequences) == st.manifest.sequences
  {
    var s, want := st.sequences, st.manifest.sequences;
    forall i | 0 <= i < |s| ensures s[i].id in want && ParseInt64(s[i].last) == Some(want[s[i].id].last) {
      assert ValidSequence(s[i]);
      DecimalParses(want[s[i].id].last);
    }
    AllSetAsListed(m, st, task);
    SameAsListed(m, s, AllSet(m, s), want);
  }

  // ---------------------------------------------------------------------------------------
  // What may happen, and by whom

  datatype Actor = Finalizer | Worker | Another

  datatype Entry = Entry(world: World, actor: Actor)

  predicate Enabled(w: World) {
    w.subscription.Some? && w.subscription.value.enabled
  }

  /** No apply worker runs and none will be started. */
  predicate Idle(w: World) {
    !w.working && !Enabled(w)
  }

  predicate InStatus(w: World, status: Status, st: FinalState) {
    w.marker.Some? && w.marker.value.status == status && w.marker.value.finalState == Some(st)
  }

  predicate Pending(w: World) {
    w.marker.Some? && w.marker.value.status == CleanupPending
  }

  /** The target's rows are those of the source at the applied position. */
  predicate InStep(history: seq<Rows>, w: World) {
    w.applied < |history| && w.rows == history[w.applied]
  }

  /** The source stopped changing at the captured position. */
  predicate Fenced(history: seq<Rows>, st: FinalState) {
    && st.finalLsn < |history|
    && forall k :: st.finalLsn <= k < |history| ==> history[k] == history[st.finalLsn]
  }

  /** The finaliser announces the cleanup only over an idle subscription that still holds its slot
      and a target that matches the captured source. */
  predicate Announces(w: World, w': World, st: FinalState) {
    && w.marker.Some? && w' == w.(marker := Some(w.marker.value.(status := CleanupPending, finalState := Some(st))))
    && Idle(w) && w.subscription.Some? && w.subscription.value.slot == w.marker.value.names.slot
    && Inspected(w) == st.manifest
  }

  predicate Concludes(w: World, w': World) {
    Pending(w) && w.subscription.None? && w' == w.(marker := Some(w.marker.value.(status := Finalized)))
  }

  predicate Detaches(w: World, w': World) {
    && Pending(w) && Idle(w) && w.subscription.Some? && w.subscription.value.slot == w.marker.value.names.slot
    && w' == w.(subscription := Some(w.subscription.value.(slot := "")))
  }

  predicate Drops(w: World, w': World) {
    && Pending(w) && Idle(w) && w.subscription.Some? && w.subscription.value.slot == ""
    && w' == w.(subscription := None)
  }

  predicate Switches(w: World, w': World) {
    w.subscription.Some? && exists on :: w' == w.(subscription := Some(w.subscription.value.(enabled := on)))
  }

  predicate SetsSequence(w: World, w': World) {
    w' == w.(sequences := w'.sequences) && w'.sequences.Keys == w.sequences.Keys
  }

  predicate Streams(history: seq<Rows>, w: World, w': World) {
    && w' == w.(rows := w'.rows, applied := w'.applied, working := w'.working)
    && w.applied <= w'.applied
    && (Idle(w) ==> w' == w)
    && (InStep(history, w) ==> InStep(history, w'))
    && (w'.working ==> w.working || Enabled(w))
  }

  /** What a worker may leave behind. */
  datatype Tail = Tail(rows: Rows, applied: nat)

  predicate CanLeave(history: seq<Rows>, w: World, tail: Tail) {
    && !Idle(w) && w.applied <= tail.applied
    && (InStep(history, w) ==> tail.applied < |history| && tail.rows == history[tail.applied])
  }

  /** The state once the worker has left `tail`, if it can, else as it was. */
  function Drained(history: seq<Rows>, w: World, tail: Tail): World {
    if CanLeave(history, w, tail) then w.(rows := tail.rows, applied := tail.applied) else w
  }

  /** The tails are exactly what the step rule lets a worker do to the data. */
  lemma TailsAreStreams(history: seq<Rows>, w: World, w': World)
    ensures Streams(history, w, w') ==> Drained(history, w, Tail(w'.rows, w'.applied)) == w'.(working := w.working)
    ensures forall tail :: Streams(history, w, Drained(history, w, tail))
  {
  }

  /** No worker runs, or whatever it can still apply is what the final state holds. */
  predicate Undisturbed(history: seq<Rows>, w: World, st: FinalState) {
    Idle(w) || (InStep(history, w) && forall k :: w.applied <= k < |history| ==> history[k] == st.manifest.rows)
  }

  function FirstOther(history: seq<Rows>, k: nat, rows: Rows): (n: nat)
    ensures k <= n && forall i :: k <= i < n && i < |history| ==> history[i] == rows
    ensures n < |history| ==> history[n] != rows
    ensures n >= |history| ==> forall i :: k <= i < |history| ==> history[i] == rows
    decreases |history| - k
  {
    if k >= |history| || history[k] != rows then k else FirstOther(history, k + 1, rows)
  }

  /** What a worker can leave that does not match, if it can leave such a thing at all. */
  function SpoilingTail(history: seq<Rows>, w: World, st: FinalState): Tail {
    var k := FirstOther(history, w.applied, st.manifest.rows);
    if InStep(history, w) && k < |history| then Tail(history[k], k) else Tail(st.manifest.rows + [""], w.applied)
  }

  /** From a matching target every behaviour of the worker leaves it matching exactly when it is
      undisturbed. */
  lemma MatchKeptIff(history: seq<Rows>, w: World, st: FinalState)
    requires Inspected(w) == st.manifest
    ensures (forall tail :: Inspected(Drained(history, w, tail)) == st.manifest) <==> Undisturbed(history, w, st)
    ensures !Undisturbed(history, w, st) ==> Inspected(Drained(history, w, SpoilingTail(history, w, st))) != st.manifest
  {
    if !Undisturbed(history, w, st) {
      var tail := SpoilingTail(history, w, st);
      assert |st.manifest.rows + [""]| != |st.manifest.rows|;
      assert Inspected(Drained(history, w, tail)) != st.manifest;
    }
  }

  /** A worker in step with a fenced source, at or past the captured position, is harmless. */
  lemma CaughtUpIsUndisturbed(history: seq<Rows>, w: World, st: FinalState)
    requires Fenced(history, st) && history[st.finalLsn] == st.manifest.rows
    requires InStep(history, w) && st.finalLsn <= w.applied
    ensures Undisturbed(history, w, st)
  {
  }

  /** In step with a source that went on after the capture. */
  lemma UnfencedSourceDisturbs(a: Rows, b: Rows, w: World, st: FinalState)
    requires a != b && st.manifest.rows == a && st.finalLsn == 0 && w.rows == a && w.applied == 0 && !Idle(w)
    ensures InStep([a, b], w) && !Fenced([a, b], st) && !Undisturbed([a, b], w, st)
  {
    assert [a, b][1] == b;
  }

  /** In step with a fenced source, but behind the captured position. */
  lemma FencedSourceDisturbs(a: Rows, b: Rows, w: World, st: FinalState)
    requires a != b && st.manifest.rows == a && st.finalLsn == 2 && w.rows == a && w.applied == 0 && !Idle(w)
    ensures InStep([a, b, a], w) && Fenced([a, b, a], st) && !Undisturbed([a, b, a], w, st)
  {
    assert [a, b, a][1] == b;
  }

  /** Other tasks and administrators do anything, but no other task writes the two last statuses. */
  predicate Interferes(w: World, w': World) {
    w'.marker == w.marker || w'.marker.None? || w'.marker.value.status !in {CleanupPending, Finalized}
  }

  ghost predicate Step(history: seq<Rows>, w: World, e: Entry) {
    match e.actor
    case Worker => Streams(history, w, e.world)
    case Another => Interferes(w, e.world)
    case Finalizer =>
      || (exists st :: Announces(w, e.world, st))
      || Concludes(w, e.world) || Detaches(w, e.world) || Drops(w, e.world)
      || Switches(w, e.world) || SetsSequence(w, e.world)
  }

  ghost predicate Legal(history: seq<Rows>, log: seq<Entry>) {
    && |log| > 0
    && forall i :: 0 < i < |log| ==> Step(history, log[i - 1].world, log[i])
  }

  // ---------------------------------------------------------------------------------------
  // Over every run

  /** A cleanup announcement found at any moment was written by the finaliser over a matching target
      and has stood unchanged since. */
  lemma {:induction false} PendingOrigin(history: seq<Rows>, log: seq<Entry>, i: nat) returns (j: nat, st: FinalState)
    requires Legal(history, log) && i < |log| && Pending(log[i].world) && !Pending(log[0].world)
    ensures 0 < j <= i && log[j].actor == Finalizer && Announces(log[j - 1].world, log[j].world, st)
    ensures forall k :: j <= k <= i ==> log[k].world.marker == log[i].world.marker
    ensures InStatus(log[i].world, CleanupPending, st)
  {
    if log[i].world.marker == log[i - 1].world.marker {
      j, st := PendingOrigin(history, log, i - 1);
    } else {
      assert Step(history, log[i - 1].world, log[i]);
      BecomesPending(history, log[i - 1].world, log[i]);
      j := i;
      st :| Announces(log[i - 1].world, log[i].world, st);
    }
  }

  /** Whenever the finaliser drops the subscription, the slot is detached, no worker runs, and a
      durable announcement stands that was written over a target equal to the captured source. */
  lemma DropsAreSafe(history: seq<Rows>, log: seq<Entry>, i: nat) returns (j: nat, st: FinalState)
    requires Legal(history, log) && 0 < i < |log| && !Pending(log[0].world)
    requires log[i].actor == Finalizer && log[i - 1].world.subscription.Some? && log[i].world.subscription.None?
    ensures log[i - 1].world.subscription.value.slot == "" && Idle(log[i - 1].world)
    ensures 0 < j < i && Announces(log[j - 1].world, log[j].world, st) && Inspected(log[j].world) == st.manifest
    ensures forall k :: j <= k <= i ==> InStatus(log[k].world, CleanupPending, st)
  {
    assert Step(history, log[i - 1].world, log[i]);
    assert Drops(log[i - 1].world, log[i].world);
    j, st := PendingOrigin(history, log, i - 1);
  }

  /** The slot is given up by the finaliser only after the announcement. */
  lemma DetachesAreSafe(history: seq<Rows>, log: seq<Entry>, i: nat) returns (j: nat, st: FinalState)
    requires Legal(history, log) && 0 < i < |log| && !Pending(log[0].world) && log[i].actor == Finalizer
    requires log[i - 1].world.subscription.Some? && log[i].world.subscription.Some?
    requires log[i].world.subscription.value.slot != log[i - 1].world.subscription.value.slot
    ensures 0 < j < i && Announces(log[j - 1].world, log[j].world, st) && Inspected(log[j].world) == st.manifest
    ensures forall k :: j <= k <= i ==> InStatus(log[k].world, CleanupPending, st)
    ensures Idle(log[i - 1].world)
  {
    assert Step(history, log[i - 1].world, log[i]);
    assert Detaches(log[i - 1].world, log[i].world);
    j, st := PendingOrigin(history, log, i - 1);
  }

  predicate Final(w: World) {
    w.marker.Some? && w.marker.value.status == Finalized
  }

  lemma BecomesFinal(history: seq<Rows>, w: World, e: Entry)
    requires Step(history, w, e) && Final(e.world) && e.world.marker != w.marker
    ensures e.actor == Finalizer && Concludes(w, e.world)
  {
  }

  lemma BecomesPending(history: seq<Rows>, w: World, e: Entry)
    requires Step(history, w, e) && Pending(e.world) && e.world.marker != w.marker
    ensures e.actor == Finalizer && exists st :: Announces(w, e.world, st)
  {
  }

  lemma ConcludesPending(w: World, w': World, st: FinalState)
    requires Concludes(w, w') && InStatus(w, CleanupPending, st)
    ensures InStatus(w', Finalized, st) && w'.subscription.None?
  {
  }

  /** A finalised marker was written over an absent subscription, after an announcement for the same
      final state, and has stood since. */
  lemma {:induction false} FinalOrigin(history: seq<Rows>, log: seq<Entry>, i: nat) returns (j: nat, k: nat, st: FinalState)
    requires Legal(history, log) && i < |log| && Final(log[i].world) && !Pending(log[0].world) && !Final(log[0].world)
    ensures 0 < j < k <= i && Announces(log[j - 1].world, log[j].world, st) && Inspected(log[j].world) == st.manifest
    ensures Concludes(log[k - 1].world, log[k].world) && log[k].world.subscription.None?
    ensures forall n :: k <= n <= i ==> InStatus(log[n].world, Finalized, st)
  {
    if log[i].world.marker == log[i - 1].world.marker {
      j, k, st := FinalOrigin(history, log, i - 1);
    } else {
      assert Step(history, log[i - 1].world, log[i]);
      BecomesFinal(history, log[i - 1].world, log[i]);
      k := i;
      j, st := PendingOrigin(history, log, i - 1);
      ConcludesPending(log[i - 1].world, log[i].world, st);
    }
  }

  // ---------------------------------------------------------------------------------------
  // When finalisation succeeds

  /** The marker belongs to this task: the ownership comparison. */
  predicate Owned(m: Marker, task: Task) {
    && m.migration == task.migration && m.plan == task.plan && m.role == "target"
    && m.databaseBinding == task.databaseBinding && m.logicalBinding == task.logicalBinding
    && m.database == task.database && m.names == task.names
  }

  predicate Admitted(w: World, task: Task, st: FinalState) {
    && w.marker.Some? && Owned(w.marker.value, task) && ValidFinalState(st, task)
    && st.schema == w.marker.value.schema
  }

  /** The subscription and the source's publication are those that were approved. */
  predicate Attached(w: World, publication: string, task: Task) {
    && w.marker.Some? && w.subscription.Some? && w.subscription.value.slot == task.names.slot
    && task.publication == publication && w.marker.value.publication == publication
    && w.subscription.value.definition == task.subscription
    && w.marker.value.subscription == task.subscription
  }

  /** Exactly when a call without failures succeeds, the source being fenced. */
  predicate Finalizable(history: seq<Rows>, publication: string, w: World, task: Task, st: FinalState) {
    && Admitted(w, task, st)
    && if InStatus(w, Finalized, st) then Inspected(w) == st.manifest
       else if InStatus(w, CleanupPending, st) then Closable(w, task, st)
       else
         && Attached(w, publication, task)
         && st.finalLsn < |history| && history[st.finalLsn] == st.manifest.rows
         && AllPresent(w.sequences, st.sequences) && AllSet(w.sequences, st.sequences) == st.manifest.sequences
  }

  predicate Closable(w: World, task: Task, st: FinalState) {
    && Inspected(w) == st.manifest
    && (w.subscription.Some? ==> w.subscription.value.slot in {"", task.names.slot})
  }

  /** What every moment of a finalisation keeps, so that it can be run again from there. */
  predicate Restartable(history: seq<Rows>, publication: string, w: World, task: Task, st: FinalState) {
    && Finalizable(history, publication, w, task, st) && InStep(history, w)
    && (InStatus(w, CleanupPending, st) ==> Idle(w))
    && (InStatus(w, Finalized, st) ==> Idle(w) && w.subscription.None?)
  }

  predicate AllRestartable(history: seq<Rows>, publication: string, log: seq<Entry>, from: nat, task: Task, st: FinalState) {
    forall i :: from <= i < |log| ==> Restartable(history, publication, log[i].world, task, st)
  }

  /** A call made only steps of the finaliser and of the worker, all of them restartable if the state
      it began in was. */
  ghost predicate Ran(history: seq<Rows>, publication: string, before: seq<Entry>, log: seq<Entry>, task: Task, st: FinalState) {
    && 0 < |before| && before <= log
    && (forall i :: |before| <= i < |log| ==> log[i].actor != Another)
    && (Fenced(history, st) && Restartable(history, publication, before[|before| - 1].world, task, st)
        ==> AllRestartable(history, publication, log, |before| - 1, task, st))
  }

  lemma RanOne(history: seq<Rows>, publication: string, before: seq<Entry>, e: Entry, task: Task, st: FinalState)
    requires |before| > 0 && e.actor != Another
    requires Fenced(history, st) && Restartable(history, publication, before[|before| - 1].world, task, st)
             ==> Restartable(history, publication, e.world, task, st)
    ensures Ran(history, publication, before, before + [e], task, st)
  {
  }

  lemma RanThen(history: seq<Rows>, publication: string, a: seq<Entry>, b: seq<Entry>, c: seq<Entry>, task: Task, st: FinalState)
    requires Ran(history, publication, a, b, task, st) && Ran(history, publication, b, c, task, st)
    ensures Ran(history, publication, a, c, task, st)
  {
    forall i | |a| <= i < |c| ensures c[i].actor != Another {
      if i < |b| {
        assert c[i] == b[i];
      }
    }
    if Fenced(history, st) && Restartable(history, publication, a[|a| - 1].world, task, st) {
      forall i | |a| - 1 <= i < |c| ensures Restartable(history, publication, c[i].world, task, st) {
        if i < |b| {
          assert c[i] == b[i];
        }
      }
    }
  }

  lemma KeptAll(history: seq<Rows>, publication: string, before: seq<Entry>, log: seq<Entry>, from: nat, task: Task, st: FinalState)
    requires 0 < |before| && before <= log && AllRestartable(history, publication, before, from, task, st)
    requires AllRestartable(history, publication, log, |before| - 1, task, st)
    ensures AllRestartable(history, publication, log, from, task, st)
  {
    forall i | from <= i < |log| ensures Restartable(history, publication, log[i].world, task, st) {
      if i < |before| {
        assert log[i] == before[i];
      }
    }
  }

  predicate Closing(w: World, st: FinalState) {
    InStatus(w, Finalized, st) || InStatus(w, CleanupPending, st)
  }

  lemma StreamingKeeps(history: seq<Rows>, publication: string, w: World, w': World, task: Task, st: FinalState)
    requires Streams(history, w, w') && Restartable(history, publication, w, task, st)
    ensures Restartable(history, publication, w', task, st)
  {
  }

  lemma RanStreaming(history: seq<Rows>, publication: string, before: seq<Entry>, after: seq<Entry>, w: World, w': World, task: Task, st: FinalState)
    requires |before| > 0 && before[|before| - 1].world == w && Streams(history, w, w')
    requires after == before || after == before + [Entry(w', Worker)]
    ensures Ran(history, publication, before, after, task, st)
  {
    if Restartable(history, publication, w, task, st) {
      StreamingKeeps(history, publication, w, w', task, st);
    }
    RanOne(history, publication, before, Entry(w', Worker), task, st);
  }

  lemma SwitchingKeeps(history: seq<Rows>, publication: string, w: World, w': World, task: Task, st: FinalState)
    requires Switches(w, w') && !Closing(w, st) && Restartable(history, publication, w, task, st)
    ensures Restartable(history, publication, w', task, st)
  {
  }

  lemma SettingKeeps(history: seq<Rows>, publication: string, w: World, i: nat, task: Task, st: FinalState)
    requires i < |st.sequences| && !Closing(w, st) && Restartable(history, publication, w, task, st)
    ensures Restartable(history, publication, w.(sequences := w.sequences[st.sequences[i].id := Value(st.sequences[i])]), task, st)
  {
    forall i, j | 0 <= i < j < |st.sequences| ensures st.sequences[i].id != st.sequences[j].id {
      ListedOnce(st, task, i, j);
    }
    SetOneAgain(w.sequences, st.sequences, i);
  }

  lemma AnnouncingKeeps(history: seq<Rows>, publication: string, w: World, w': World, task: Task, st: FinalState)
    requires Announces(w, w', st) && Restartable(history, publication, w, task, st)
    ensures Restartable(history, publication, w', task, st)
  {
  }

  lemma ClosingKeeps(history: seq<Rows>, publication: string, w: World, w': World, task: Task, st: FinalState)
    requires Detaches(w, w') || Drops(w, w') || Concludes(w, w')
    requires InStatus(w, CleanupPending, st) && Restartable(history, publication, w, task, st)
    ensures Restartable(history, publication, w', task, st)
  {
  }
}
