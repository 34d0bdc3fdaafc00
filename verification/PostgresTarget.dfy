/** The finalisation of the target as it runs, with failures anywhere.  A failed catalog command may
    have taken effect or not; a failed save of the marker leaves the old marker. */
module PostgresTarget {
  import opened Wrappers
  import opened PostgresFinalize
  import Bytes
  import Int64

  class TargetHost {
    /** The source's rows at each position of its log, and its publication's definition. */
    const history: seq<Rows>
    const publication: string
    var marker: Option<Marker>
    var subscription: Option<Subscription>
    var rows: Rows
    var applied: nat
    var sequences: map<SequenceId, Counter>
    var working: bool
    var log: seq<Entry>

    function Now(): World
      reads this
    {
      World(marker, subscription, rows, applied, sequences, working)
    }

    ghost predicate Valid()
      reads this
    {
      Legal(history, log) && log[|log| - 1].world == Now()
    }

    constructor (history: seq<Rows>, publication: string, w: World)
      ensures Valid() && Now() == w && log == [Entry(w, Another)]
      ensures this.history == history && this.publication == publication
    {
      this.history, this.publication := history, publication;
      marker, subscription, rows, applied, sequences, working := w.marker, w.subscription, w.rows, w.applied, w.sequences, w.working;
      log := [Entry(w, Another)];
    }

    method Note(actor: Actor)
      requires Legal(history, log) && Step(history, log[|log| - 1].world, Entry(Now(), actor))
      modifies `log
      ensures Valid() && log == old(log) + [Entry(Now(), actor)]
    {
      log := log + [Entry(Now(), actor)];
    }

    method Chance(reliable: bool) returns (ok: bool)
      ensures reliable ==> ok
    {
      ok := *;
      ok := ok || reliable;
    }

    /** The apply worker, if there is one, leaves `tail` if it can. */
    method RunWorker(tail: Tail)
      requires Valid()
      modifies this
      ensures Valid() && (log == old(log) || log == old(log) + [Entry(Now(), Worker)])
      ensures Streams(history, old(Now()), Now())
      ensures Now() == Drained(history, old(Now()), tail).(working := working)
    {
      if working || (subscription.Some? && subscription.value.enabled) {
        if CanLeave(history, Now(), tail) {
          rows, applied := tail.rows, tail.applied;
        }
        working := *;
        Note(Worker);
      }
    }

    /** The same within a finalisation. */
    method LetWork(tail: Tail, task: Task, st: FinalState)
      requires Valid()
      modifies this
      ensures Valid() && Ran(history, publication, old(log), log, task, st)
      ensures Streams(history, old(Now()), Now())
      ensures Now() == Drained(history, old(Now()), tail).(working := working)
    {
      RunWorker(tail);
      RanStreaming(history, publication, old(log), log, old(Now()), Now(), task, st);
    }

    /** Waits until the worker has stopped. */
    method WaitWorkerStopped(task: Task, st: FinalState, reliable: bool) returns (ok: bool)
      requires Valid()
      modifies this
      ensures Valid() && Ran(history, publication, old(log), log, task, st)
      ensures Now() == old(Now()).(working := working)
      ensures ok ==> !working
      ensures reliable ==> ok
    {
      ok := true;
      if working {
        ok := Chance(reliable);
        working := !ok;
        Note(Worker);
      }
      RanStreaming(history, publication, old(log), log, old(Now()), Now(), task, st);
    }

    /** Waits until the applied position has reached `lsn`. */
    method WaitFinalLsn(task: Task, st: FinalState, tail: Tail, reliable: bool) returns (ok: bool)
      requires Valid()
      modifies this
      ensures Valid() && Ran(history, publication, old(log), log, task, st)
      ensures Streams(history, old(Now()), Now())
      ensures ok ==> applied >= st.finalLsn
      ensures reliable && old(Enabled(Now()) && InStep(history, Now())) && st.finalLsn < |history| ==> ok
    {
      LetWork(tail, task, st);
      if applied < st.finalLsn < |history| && rows == history[applied] && subscription.Some? && subscription.value.enabled && reliable {
        ghost var before, was := log, Now();
        applied, rows := st.finalLsn, history[st.finalLsn];
        Note(Worker);
        RanStreaming(history, publication, before, log, was, Now(), task, st);
        RanThen(history, publication, old(log), before, log, task, st);
      }
      ok := Chance(reliable);
      ok := ok && applied >= st.finalLsn;
    }

    /** A catalog command; after a failure it may have taken effect or not. */
    method Command(next: World, reliable: bool, task: Task, st: FinalState) returns (ok: bool)
      requires Valid() && Step(history, Now(), Entry(next, Finalizer)) && next.marker == marker
      requires Fenced(history, st) && Restartable(history, publication, Now(), task, st) ==> Restartable(history, publication, next, task, st)
      modifies this
      ensures Valid() && Ran(history, publication, old(log), log, task, st)
      ensures Now() == next || (!ok && Now() == old(Now()))
      ensures reliable ==> ok
    {
      ok := Chance(reliable);
      var effective := Chance(ok);
      if effective {
        subscription, rows, applied, sequences, working := next.subscription, next.rows, next.applied, next.sequences, next.working;
        RanOne(history, publication, log, Entry(next, Finalizer), task, st);
        Note(Finalizer);
      }
    }

    method SaveMarker(m: Marker, reliable: bool, task: Task, st: FinalState) returns (ok: bool)
      requires Valid() && Step(history, Now(), Entry(Now().(marker := Some(m)), Finalizer))
      requires Fenced(history, st) && Restartable(history, publication, Now(), task, st)
               ==> Restartable(history, publication, Now().(marker := Some(m)), task, st)
      modifies this
      ensures Valid() && Ran(history, publication, old(log), log, task, st)
      ensures Now() == if ok then old(Now()).(marker := Some(m)) else old(Now())
      ensures reliable ==> ok
    {
      ok := Chance(reliable);
      if ok {
        marker := Some(m);
        RanOne(history, publication, log, Entry(Now(), Finalizer), task, st);
        Note(Finalizer);
      }
    }

    /** Enables the subscription if needed, waits for the captured position, disables it again and
        waits until its worker has stopped. */
    method CatchUp(task: Task, st: FinalState, tail: Tail, reliable: bool) returns (ok: bool)
      requires Valid() && Attached(Now(), publication, task) && !Closing(Now(), st)
      modifies this
      ensures Valid() && Ran(history, publication, old(log), log, task, st)
      ensures marker == old(marker) && sequences == old(sequences) && Attached(Now(), publication, task)
      ensures old(InStep(history, Now())) ==> InStep(history, Now())
      ensures ok ==> Idle(Now()) && applied >= st.finalLsn
      ensures reliable && old(InStep(history, Now())) && st.finalLsn < |history| ==> ok
    {
      ok := Enable(true, reliable, task, st);
      if !ok {
        return;
      }
      ghost var first := log;
      ok := WaitFinalLsn(task, st, tail, reliable);
      RanThen(history, publication, old(log), first, log, task, st);
      if !ok {
        return;
      }
      ghost var second := log;
      ok := Enable(false, reliable, task, st);
      RanThen(history, publication, old(log), second, log, task, st);
      if !ok {
        return;
      }
      ghost var third := log;
      LetWork(tail, task, st);
      RanThen(history, publication, old(log), third, log, task, st);
      ghost var fourth := log;
      ok := WaitWorkerStopped(task, st, reliable);
      RanThen(history, publication, old(log), fourth, log, task, st);
    }

    /** Switches the subscription on or off; a subscription already on is not touched. */
    method Enable(on: bool, reliable: bool, task: Task, st: FinalState) returns (ok: bool)
      requires Valid() && subscription.Some? && !Closing(Now(), st)
      modifies this
      ensures Valid() && Ran(history, publication, old(log), log, task, st)
      ensures Now() == old(Now()) || Now() == old(Now()).(subscription := Some(old(subscription).value.(enabled := on)))
      ensures ok ==> Enabled(Now()) == on
      ensures reliable ==> ok
    {
      ok := true;
      if !(on && subscription.value.enabled) {
        var next := Now().(subscription := Some(subscription.value.(enabled := on)));
        assert Switches(Now(), next);
        if Restartable(history, publication, Now(), task, st) {
          SwitchingKeeps(history, publication, Now(), next, task, st);
        }
        ok := Command(next, reliable, task, st);
      }
    }

    /** Sets every listed sequence; one that does not exist fails. */
    method SetSequences(task: Task, st: FinalState, reliable: bool) returns (ok: bool)
      requires Valid() && !Closing(Now(), st) && ValidFinalState(st, task)
      modifies this
      ensures Valid() && Ran(history, publication, old(log), log, task, st)
      ensures Now() == old(Now()).(sequences := sequences)
      // Each listed sequence has its number and flag, every other one is as it was.
      ensures ok ==> SetAsListed(old(sequences), st.sequences, sequences)
      ensures ok ==> sequences == AllSet(old(sequences), st.sequences)
      ensures ok ==> AllPresent(old(sequences), st.sequences)
      ensures reliable && AllPresent(old(sequences), st.sequences) ==> ok
    {
      var s := st.sequences;
      for i := 0 to |s|
        invariant Valid() && Ran(history, publication, old(log), log, task, st)
        invariant Now() == old(Now()).(sequences := sequences) && SetUpTo(old(sequences), s, i, sequences)
      {
        ghost var before, was := log, sequences;
        ok := SetSequence(i, reliable, task, st);
        RanThen(history, publication, old(log), before, log, task, st);
        if !ok {
          return;
        }
        SetUpToNext(old(sequences), s, i, was);
      }
      SetUpToAll(old(sequences), s, sequences);
      AllSetAsListed(old(sequences), st, task);
      ok := true;
    }

    method SetSequence(i: nat, reliable: bool, task: Task, st: FinalState) returns (ok: bool)
      requires Valid() && !Closing(Now(), st) && i < |st.sequences|
      modifies this
      ensures Valid() && Ran(history, publication, old(log), log, task, st)
      ensures Now() == old(Now()).(sequences := sequences) && sequences.Keys == old(sequences).Keys
      ensures ok ==> st.sequences[i].id in sequences && sequences == old(sequences)[st.sequences[i].id := Value(st.sequences[i])]
      ensures reliable && st.sequences[i].id in sequences ==> ok
    {
      var one := st.sequences[i];
      if one.id !in sequences {
        return false;
      }
      var next := Now().(sequences := sequences[one.id := Value(one)]);
      assert SetsSequence(Now(), next);
      if Restartable(history, publication, Now(), task, st) {
        SettingKeeps(history, publication, Now(), i, task, st);
      }
      ok := Command(next, reliable, task, st);
    }

    /** Gives up the slot, if it is still held, and drops the subscription. */
    method DetachAndDrop(reliable: bool, task: Task, st: FinalState) returns (ok: bool)
      requires Valid() && InStatus(Now(), CleanupPending, st) && Idle(Now()) && subscription.Some?
      requires subscription.value.slot == "" || subscription.value.slot == marker.value.names.slot
      modifies this
      ensures Valid() && Ran(history, publication, old(log), log, task, st)
      ensures Now() == old(Now()).(subscription := subscription)
      ensures ok ==> subscription.None?
      ensures reliable ==> ok
    {
      if subscription.value.slot != "" {
        var detached := Now().(subscription := Some(subscription.value.(slot := "")));
        assert Detaches(Now(), detached);
        if Restartable(history, publication, Now(), task, st) {
          ClosingKeeps(history, publication, Now(), detached, task, st);
        }
        ok := Command(detached, reliable, task, st);
        if !ok {
          return;
        }
      }
      ghost var before := log;
      var dropped := Now().(subscription := None);
      assert Drops(Now(), dropped);
      if Restartable(history, publication, Now(), task, st) {
        ClosingKeeps(history, publication, Now(), dropped, task, st);
      }
      ok := Command(dropped, reliable, task, st);
      RanThen(history, publication, old(log), before, log, task, st);
    }

    method Conclude(reliable: bool, task: Task, st: FinalState) returns (ok: bool)
      requires Valid() && InStatus(Now(), CleanupPending, st) && subscription.None?
      modifies this
      ensures Valid() && Ran(history, publication, old(log), log, task, st)
      ensures Now() == old(Now()).(marker := marker)
      ensures ok ==> marker == Some(old(marker).value.(status := Finalized))
      ensures reliable ==> ok
    {
      var final := marker.value.(status := Finalized);
      assert Concludes(Now(), Now().(marker := Some(final)));
      if Restartable(history, publication, Now(), task, st) {
        ClosingKeeps(history, publication, Now(), Now().(marker := Some(final)), task, st);
      }
      ok := SaveMarker(final, reliable, task, st);
    }

    /** Disables a subscription found during recovery. */
    method TurnOff(task: Task, st: FinalState, reliable: bool) returns (ok: bool)
      requires Valid() && InStatus(Now(), CleanupPending, st) && subscription.Some?
      modifies this
      ensures Valid() && Ran(history, publication, old(log), log, task, st)
      ensures Now() == old(Now()) || Now() == old(Now()).(subscription := Some(old(subscription).value.(enabled := false)))
      ensures ok ==> !Enabled(Now())
      ensures reliable ==> ok
    {
      ok := true;
      if subscription.value.enabled {
        var next := Now().(subscription := Some(subscription.value.(enabled := false)));
        assert Switches(Now(), next);
        ok := Command(next, reliable, task, st);
      }
    }

    /** Stops a subscription found during recovery.  The worker goes on until it has stopped, before or
        after it is told to. */
    method Quiet(task: Task, st: FinalState, tail: Tail, reliable: bool) returns (ok: bool)
      requires Valid() && InStatus(Now(), CleanupPending, st) && subscription.Some?
      modifies this
      ensures Valid() && Ran(history, publication, old(log), log, task, st)
      ensures marker == old(marker) && sequences == old(sequences)
      ensures subscription.Some? && subscription.value.slot == old(subscription).value.slot
      ensures ok ==> Idle(Now())
      ensures reliable ==> ok
      ensures ok ==> rows == Drained(history, old(Now()), tail).rows
    {
      var early := *;
      early := early || !working;
      if early {
        LetWork(tail, task, st);
      }
      ghost var first := log;
      ok := TurnOff(task, st, reliable);
      RanThen(history, publication, old(log), first, log, task, st);
      if !ok {
        return;
      }
      if !early {
        ghost var second := log;
        LetWork(tail, task, st);
        RanThen(history, publication, old(log), second, log, task, st);
      }
      ghost var third := log;
      ok := WaitWorkerStopped(task, st, reliable);
      RanThen(history, publication, old(log), third, log, task, st);
    }

    /** Finishes a finalisation that was interrupted after its announcement. */
    method Recover(task: Task, st: FinalState, tail: Tail, reliable: bool) returns (ok: bool)
      requires Valid() && InStatus(Now(), CleanupPending, st) && marker.value.names == task.names
      modifies this
      ensures Valid() && Ran(history, publication, old(log), log, task, st)
      ensures ok ==> subscription.None? && old(Closable(Now(), task, st))
      ensures ok ==> marker == Some(old(marker).value.(status := Finalized))
      ensures ok ==> sequences == old(sequences)
      ensures ok ==> rows == if old(subscription.Some?) then Drained(history, old(Now()), tail).rows else old(rows)
      ensures reliable && old(Closable(Now(), task, st)) ==> ok
    {
      ok := Chance(reliable);
      if !ok || Inspected(Now()) != st.manifest {
        return false;
      }
      if subscription.Some? {
        ok := Quiet(task, st, tail, reliable);
        if !ok || (subscription.value.slot != "" && subscription.value.slot != task.names.slot) {
          return false;
        }
        ghost var before := log;
        ok := DetachAndDrop(reliable, task, st);
        RanThen(history, publication, old(log), before, log, task, st);
        if !ok {
          return;
        }
      }
      ghost var before := log;
      ok := Conclude(reliable, task, st);
      RanThen(history, publication, old(log), before, log, task, st);
    }

    /** Announces the cleanup over a matching target, then detaches, drops and concludes. */
    method Close(task: Task, st: FinalState, reliable: bool) returns (ok: bool)
      requires Valid() && Attached(Now(), publication, task) && marker.value.names == task.names
      requires Idle(Now()) && Inspected(Now()) == st.manifest
      modifies this
      ensures Valid() && Ran(history, publication, old(log), log, task, st)
      ensures Inspected(Now()) == st.manifest
      ensures ok ==> subscription.None? && marker == Some(old(marker).value.(status := Finalized, finalState := Some(st)))
      ensures reliable ==> ok
    {
      var announced := marker.value.(status := CleanupPending, finalState := Some(st));
      assert Announces(Now(), Now().(marker := Some(announced)), st);
      if Restartable(history, publication, Now(), task, st) {
        AnnouncingKeeps(history, publication, Now(), Now().(marker := Some(announced)), task, st);
      }
      ok := SaveMarker(announced, reliable, task, st);
      if !ok {
        return;
      }
      ghost var first := log;
      ok := DetachAndDrop(reliable, task, st);
      RanThen(history, publication, old(log), first, log, task, st);
      if !ok {
        return;
      }
      ghost var second := log;
      ok := Conclude(reliable, task, st);
      RanThen(history, publication, old(log), second, log, task, st);
      var reported := Chance(reliable);
      ok := ok && reported;
    }

    /** Finalisation from an attached subscription. */
    method FinalizeAttached(task: Task, st: FinalState, tail: Tail, reliable: bool) returns (ok: bool)
      requires Valid() && Admitted(Now(), task, st) && !Closing(Now(), st)
      modifies this
      ensures Valid() && Ran(history, publication, old(log), log, task, st)
      ensures ok ==> subscription.None? && Inspected(Now()) == st.manifest
      ensures ok ==> marker == Some(old(marker).value.(status := Finalized, finalState := Some(st)))
      ensures ok ==> old(Attached(Now(), publication, task))
      ensures reliable && Fenced(history, st) && old(InStep(history, Now())) ==>
        (ok <==> old(Finalizable(history, publication, Now(), task, st)))
    {
      ok := Chance(reliable);
      if !ok || !Attached(Now(), publication, task) {
        return false;
      }
      ok := CatchUp(task, st, tail, reliable);
      if !ok {
        return;
      }
      ghost var first := log;
      ok := SetSequences(task, st, reliable);
      RanThen(history, publication, old(log), first, log, task, st);
      if !ok {
        return;
      }
      ok := Chance(reliable);
      if !ok || Inspected(Now()) != st.manifest {
        return false;
      }
      ghost var second := log;
      ok := Close(task, st, reliable);
      RanThen(history, publication, old(log), second, log, task, st);
    }

    /** The whole call.  A success means the marker is final and, unless it already was, that this call
        left no subscription.  The target equals the captured source then, except that recovery, which
        compares before it stops the worker, leaves what the worker leaves. */
    method FinalizeTarget(task: Task, st: FinalState, tail: Tail, reliable: bool) returns (ok: bool)
      requires Valid()
      modifies this
      ensures Valid() && Ran(history, publication, old(log), log, task, st)
      ensures ok ==> old(marker).Some? && marker == Some(old(marker).value.(status := Finalized, finalState := Some(st)))
      ensures ok ==> if old(InStatus(Now(), Finalized, st)) then Now() == old(Now()) else subscription.None?
      // Only a marker of this task, its bindings and names, and a final state captured for it are accepted.
      ensures ok ==>
        && old(marker).Some?
        && old(marker).value == Marker(
             task.migration, task.plan, "target", task.databaseBinding, task.logicalBinding, task.database, task.names, st.schema,
             old(marker).value.publication, old(marker).value.subscription, old(marker).value.status, old(marker).value.finalState)
        && st.migration == task.migration && st.plan == task.plan && st.names == task.names
        && st.sourceDatabase == task.sourceDatabase && st.targetDatabase == task.targetDatabase
      ensures ok && !old(Closing(Now(), st)) ==>
        && old(subscription).Some? && old(subscription).value.slot == task.names.slot
        && old(subscription).value.definition == task.subscription == old(marker).value.subscription
        && task.publication == publication == old(marker).value.publication
      ensures ok && !old(InStatus(Now(), CleanupPending, st)) ==> Inspected(Now()) == st.manifest
      ensures ok && old(InStatus(Now(), CleanupPending, st)) ==>
        Inspected(Now()) == if old(subscription.Some?) then Inspected(Drained(history, old(Now()), tail)) else st.manifest
      ensures ok && old(Undisturbed(history, Now(), st)) ==> Inspected(Now()) == st.manifest
      ensures reliable && (old(Closing(Now(), st)) || (Fenced(history, st) && old(InStep(history, Now())))) ==>
        (ok <==> old(Finalizable(history, publication, Now(), task, st)))
    {
      var loaded := Chance(reliable);
      if !loaded || marker.None? || !Owned(marker.value, task) {
        return false;
      }
      var valid := ValidateFinalState(st, task);
      if !valid || st.schema != marker.value.schema {
        return false;
      }
      if InStatus(Now(), Finalized, st) {
        var inspected := Chance(reliable);
        return inspected && Inspected(Now()) == st.manifest;
      }
      var queried := Chance(reliable);
      if !queried {
        return false;
      }
      if InStatus(Now(), CleanupPending, st) {
        ok := Recover(task, st, tail, reliable);
      } else {
        ok := FinalizeAttached(task, st, tail, reliable);
      }
    }

    /** The process stops at any moment of the run so far. */
    method CrashAt(k: nat)
      requires Valid() && 0 < k <= |log|
      modifies this
      ensures Valid() && log == old(log)[..k] && Now() == old(log)[k - 1].world
    {
      var w := log[k - 1].world;
      log := log[..k];
      marker, subscription, rows, applied, sequences, working := w.marker, w.subscription, w.rows, w.applied, w.sequences, w.working;
    }

    /** Another task or an administrator does anything short of writing the last two statuses. */
    method Interfere(w: World)
      requires Valid() && Interferes(Now(), w)
      modifies this
      ensures Valid() && Now() == w && log == old(log) + [Entry(w, Another)]
    {
      marker, subscription, rows, applied, sequences, working := w.marker, w.subscription, w.rows, w.applied, w.sequences, w.working;
      Note(Another);
    }

    /** Any run: finalisations of any final state with failures and stops anywhere, the worker, and
        any interference in between. */
    method AnyRun(steps: nat)
      requires Valid()
      modifies this
      ensures Valid() && log[0] == old(log)[0]
    {
      for i := 0 to steps
        invariant Valid() && log[0] == old(log)[0]
      {
        var choice, task, st, tail, k, w := *, *, *, *, *, *;
        if choice == 0 && 0 < k <= |log| {
          CrashAt(k);
        } else if choice == 1 && Interferes(Now(), w) {
          Interfere(w);
        } else if choice == 2 {
          RunWorker(tail);
        } else {
          var _ := FinalizeTarget(task, st, tail, false);
        }
      }
    }

    /** Finalisation can be run again from every point: after any number of attempts that failed or
        stopped anywhere, one attempt without failures finalises the target. */
    method RetryAfterCrashes(task: Task, st: FinalState, attempts: nat) returns (ok: bool)
      requires Valid() && Fenced(history, st) && Restartable(history, publication, Now(), task, st)
      modifies this
      ensures Valid() && ok && InStatus(Now(), Finalized, st) && subscription.None? && Inspected(Now()) == st.manifest
    {
      var base := |log|;
      for i := 0 to attempts
        invariant Valid() && base <= |log| && AllRestartable(history, publication, log, base - 1, task, st)
      {
        var tail, k := *, *;
        RunWorkerRestartable(task, st, tail, base);
        ghost var before := log;
        var _ := FinalizeTarget(task, st, tail, false);
        assert AllRestartable(history, publication, log, |before| - 1, task, st);
        KeptAll(history, publication, before, log, base - 1, task, st);
        if base <= k <= |log| {
          CrashAt(k);
        }
      }
      ok := FinalizeTarget(task, st, Tail([], 0), true);
      assert Restartable(history, publication, log[|log| - 1].world, task, st);
    }

    method RunWorkerRestartable(task: Task, st: FinalState, tail: Tail, ghost base: nat)
      requires Valid() && 0 < base <= |log| && AllRestartable(history, publication, log, base - 1, task, st)
      modifies this
      ensures Valid() && base <= |log| && AllRestartable(history, publication, log, base - 1, task, st)
    {
      ghost var was := Now();
      assert Restartable(history, publication, log[|log| - 1].world, task, st);
      RunWorker(tail);
      StreamingKeeps(history, publication, was, Now(), task, st);
    }
  }

  /** A final state as the source captures it, with sorted sequences, each printed with its number and flag,
      finalises a replicating target in step with the fenced source that has the same sequences. */
  method CapturedStateFinalizes(history: seq<Rows>, w: World, task: Task, st: FinalState, tail: Tail) returns (ok: bool, left: World)
    requires st.migration == task.migration && st.plan == task.plan && st.names == task.names && |st.sequences| <= 4096
    requires st.sourceDatabase == task.sourceDatabase && st.targetDatabase == task.targetDatabase
    requires forall i :: 0 <= i < |st.sequences| ==>
      ValidIdentifier(st.sequences[i].id.schema) && ValidIdentifier(st.sequences[i].id.name)
    requires forall i, j :: 0 <= i < j < |st.sequences| ==> st.sequences[i].id != st.sequences[j].id
    requires forall i, j :: 0 <= i < j < |st.sequences| ==> !Bytes.Less(Identity(st.sequences[j].id), Identity(st.sequences[i].id))
    requires ListsManifest(st)
    requires forall id :: id in st.manifest.sequences ==> Int64.IsInt64(st.manifest.sequences[id].last)
    requires w.marker == Some(Marker(
      task.migration, task.plan, "target", task.databaseBinding, task.logicalBinding, task.database, task.names, st.schema,
      task.publication, task.subscription, Replicating, None))
    requires exists enabled :: w.subscription == Some(Subscription(enabled, task.names.slot, task.subscription))
    requires w.applied < |history| && w.rows == history[w.applied] && w.sequences.Keys == st.manifest.sequences.Keys
    requires st.finalLsn < |history| && forall k :: st.finalLsn <= k < |history| ==> history[k] == st.manifest.rows
    ensures ok && left.subscription.None?
    ensures left.rows == st.manifest.rows && left.sequences == st.manifest.sequences
    ensures left.marker == Some(w.marker.value.(status := Finalized, finalState := Some(st)))
  {
    forall i | 0 <= i < |st.sequences| ensures ValidSequence(st.sequences[i]) {
      DecimalParses(st.manifest.sequences[st.sequences[i].id].last);
    }
    SortedCaptureAccepted(st, task);
    ManifestIsSet(w.sequences, st, task);
    assert Finalizable(history, task.publication, w, task, st);
    var host := new TargetHost(history, task.publication, w);
    ok := host.FinalizeTarget(task, st, tail, true);
    left := host.Now();
  }

  /** From every announced state that can be finalised and is not undisturbed there is a worker that
      changes the target after recovery compared it; the call succeeds all the same. */
  method DriftDuringRecovery(history: seq<Rows>, publication: string, w: World, task: Task, st: FinalState)
    returns (ok: bool, intact: bool)
    requires Finalizable(history, publication, w, task, st) && InStatus(w, CleanupPending, st) && w.subscription.Some?
    requires !Undisturbed(history, w, st)
    ensures ok && !intact
  {
    MatchKeptIff(history, w, st);
    var host := new TargetHost(history, publication, w);
    ok := host.FinalizeTarget(task, st, SpoilingTail(history, w, st), true);
    intact := Inspected(host.Now()) == st.manifest;
  }
}
