/** What becomes of the counts of violations and watchdog errors over a whole run.

    A fence operation copies the fence, works, and writes a record built from the copy.  The
    watchdog without a service controller counts on every active fence without taking the lock of
    fence operations, so it can count in between; the written record then takes the count back. */
module FenceCounters {
  import opened FenceState
  import opened FenceSteps
  import opened FenceRules

  /** How often the unlocked watchdog counted on a fence strictly between two entries. */
  ghost function Bumps(log: seq<Entry>, since: nat, i: nat, id: MigrationId): nat
    requires i <= |log|
    decreases i
  {
    if i <= since + 1 then 0
    else Bumps(log, since, i - 1, id) + (if log[i - 1].actor.Unavailable? && IsActiveIn(log[i - 2].world.mem, id) then 1 else 0)
  }

  /** Between a copy and the write, memory counts exactly what the unlocked watchdog adds. */
  lemma {:induction false} WindowCounts(log: seq<Entry>, since: nat, i: nat, id: MigrationId)
    requires Run(log) && CalmBetween(log, since, i)
    ensures Violations(log[i - 1].world.mem, id) == Violations(log[since].world.mem, id) + Bumps(log, since, i, id)
    ensures WatchdogErrors(log[i - 1].world.mem, id) == WatchdogErrors(log[since].world.mem, id) + Bumps(log, since, i, id)
    decreases i
  {
    if i > since + 1 {
      WindowCounts(log, since, i - 1, id);
      assert StepOk(log, i - 1) && Calm(log[i - 1].actor);
    }
  }

  /** The exact effect of one save of a fence operation: it takes back what the unlocked watchdog
      counted since the copy, and so keeps the counts exactly when that is nothing. */
  lemma CommitTakesBack(log: seq<Entry>, i: nat)
    requires Run(log) && 0 < i < |log| && log[i].actor.Commit?
    ensures var id, since := log[i].actor.record.id, log[i].actor.since;
            var before, after := log[i - 1].world.mem, log[i].world.mem;
            && since < i
            && Violations(after, id) + Bumps(log, since, i, id) == Violations(before, id)
            && WatchdogErrors(after, id) + Bumps(log, since, i, id) == WatchdogErrors(before, id)
            && (NotAbove(before, after, id) <==> Bumps(log, since, i, id) == 0)
  {
    assert StepOk(log, i);
    WindowCounts(log, log[i].actor.since, i, log[i].actor.record.id);
  }

  /** The state file held a count made between the copy and entry `p`. */
  ghost predicate SavedBump(log: seq<Entry>, since: nat, p: nat, id: MigrationId)
    requires p < |log|
  {
    since < p && Bumps(log, since, p + 1, id) > 0 && SameCount(log[p].world.disk, log[p].world.mem, id)
  }

  /** The entry writes a record over a count that the state file already held. */
  ghost predicate OverwritesSaved(log: seq<Entry>, j: nat, id: MigrationId)
    requires j < |log|
  {
    && log[j].actor.Commit? && log[j].actor.record.id == id
    && exists p :: 0 <= p < j && SavedBump(log, log[j].actor.since, p, id)
  }

  ghost predicate NoneOverwritten(log: seq<Entry>, n: nat, id: MigrationId) {
    forall j :: 0 <= j < |log| && j <= n ==> !OverwritesSaved(log, j, id)
  }

  /** No state file up to `j` counts more than memory or the state file at `j`. */
  ghost predicate KeptUpTo(log: seq<Entry>, j: nat, id: MigrationId)
    requires j < |log|
  {
    forall i :: 0 <= i <= j ==> NotAbove(log[i].world.disk, log[j].world.mem, id) && NotAbove(log[i].world.disk, log[j].world.disk, id)
  }

  lemma CalmFile(log: seq<Entry>, i: nat)
    requires Run(log) && 0 < i < |log| && Calm(log[i].actor)
    ensures log[i].world.disk == log[i - 1].world.disk || log[i].world.disk == log[i].world.mem
  {
    assert StepOk(log, i);
  }

  /** Between a copy and the write no state file counts more than the copy, unless a count was saved. */
  lemma {:induction false} WindowFiles(log: seq<Entry>, since: nat, i: nat, j: nat, id: MigrationId)
    requires Run(log) && CalmBetween(log, since, j) && since <= i < j
    requires NotAbove(log[since].world.disk, log[since].world.mem, id)
    requires forall p :: 0 <= p < j ==> !SavedBump(log, since, p, id)
    ensures NotAbove(log[i].world.disk, log[since].world.mem, id)
    decreases i
  {
    if i > since {
      WindowFiles(log, since, i - 1, j, id);
      CalmFile(log, i);
      if log[i].world.disk != log[i - 1].world.disk {
        assert !SavedBump(log, since, i, id);
        WindowCounts(log, since, i + 1, id);
      }
    }
  }

  /** What any step but an own save does to the counts of a fence. */
  lemma StepCounts(log: seq<Entry>, j: nat, id: MigrationId)
    requires Run(log) && 0 < j < |log| && (log[j].actor.Commit? ==> log[j].actor.record.id != id)
    ensures var w, w' := log[j - 1].world, log[j].world;
            || (w'.mem == w.disk && w'.disk == w.disk)
            || (NotAbove(w.mem, w'.mem, id) && (w'.disk == w.disk || SameCount(w'.disk, w'.mem, id)))
  {
    assert StepOk(log, j);
  }

  /** Any step but a save over a count moves memory and file forward on this fence. */
  lemma OtherStepKeeps(log: seq<Entry>, j: nat, id: MigrationId)
    requires Run(log) && 0 < j < |log| && KeptUpTo(log, j - 1, id)
    requires log[j].actor.Commit? ==> log[j].actor.record.id != id
    ensures KeptUpTo(log, j, id)
  {
    StepCounts(log, j, id);
    KeptOver(log, j, id);
  }

  lemma KeptOver(log: seq<Entry>, j: nat, id: MigrationId)
    requires 0 < j < |log| && KeptUpTo(log, j - 1, id)
    requires var w, w' := log[j - 1].world, log[j].world;
            || (w'.mem == w.disk && w'.disk == w.disk)
            || (NotAbove(w.mem, w'.mem, id) && (w'.disk == w.disk || SameCount(w'.disk, w'.mem, id)))
    ensures KeptUpTo(log, j, id)
  {
    var w, w' := log[j - 1].world, log[j].world;
    assert NotAbove(w.disk, w.mem, id);
    forall i | 0 <= i <= j ensures NotAbove(log[i].world.disk, w'.mem, id) && NotAbove(log[i].world.disk, w'.disk, id) {
      if i < j {
        assert NotAbove(log[i].world.disk, w.mem, id) && NotAbove(log[i].world.disk, w.disk, id);
      }
    }
  }

  /** A save over no saved count keeps what the files up to the copy counted. */
  lemma CommitKeeps(log: seq<Entry>, j: nat)
    requires Run(log) && 0 < j < |log| && log[j].actor.Commit? && log[j].actor.since < j
    requires !OverwritesSaved(log, j, log[j].actor.record.id)
    requires KeptUpTo(log, j - 1, log[j].actor.record.id) && KeptUpTo(log, log[j].actor.since, log[j].actor.record.id)
    ensures KeptUpTo(log, j, log[j].actor.record.id)
  {
    var id, since := log[j].actor.record.id, log[j].actor.since;
    assert StepOk(log, j);
    assert NotAbove(log[since].world.disk, log[since].world.mem, id);
    forall i | 0 <= i < j ensures NotAbove(log[i].world.disk, log[since].world.mem, id) {
      if i > since {
        WindowFiles(log, since, i, j, id);
      }
    }
    assert SameCount(log[since].world.mem, log[j].world.mem, id);
    assert NotAbove(log[j - 1].world.disk, log[since].world.mem, id);
  }

  lemma FewerOverwritten(log: seq<Entry>, n: nat, m: nat, id: MigrationId)
    requires NoneOverwritten(log, n, id) && m <= n
    ensures NoneOverwritten(log, m, id)
  {
  }

  lemma NextKeeps(log: seq<Entry>, j: nat, id: MigrationId)
    requires Run(log) && 0 < j < |log| && KeptUpTo(log, j - 1, id) && !OverwritesSaved(log, j, id)
    requires log[j].actor.Commit? && log[j].actor.record.id == id ==> log[j].actor.since < j && KeptUpTo(log, log[j].actor.since, id)
    ensures KeptUpTo(log, j, id)
  {
    if log[j].actor.Commit? && log[j].actor.record.id == id {
      CommitKeeps(log, j);
    } else {
      OtherStepKeeps(log, j, id);
    }
  }

  predicate OwnCommit(log: seq<Entry>, j: nat, id: MigrationId)
    requires j < |log|
  {
    log[j].actor.Commit? && log[j].actor.record.id == id
  }

  /** The step keeps the counts unless it overwrites one. */
  ghost predicate StepKeeps(log: seq<Entry>, j: nat, id: MigrationId)
    requires 0 < j < |log|
  {
    && (OwnCommit(log, j, id) ==> log[j].actor.since < j)
    && (KeptUpTo(log, j - 1, id) && !OverwritesSaved(log, j, id) ==>
          (OwnCommit(log, j, id) ==> KeptUpTo(log, log[j].actor.since, id)) ==> KeptUpTo(log, j, id))
  }

  lemma StepsKeep(log: seq<Entry>, j: nat, id: MigrationId)
    requires Run(log) && 0 < j < |log|
    ensures StepKeeps(log, j, id)
  {
    if OwnCommit(log, j, id) {
      assert StepOk(log, j);
    }
    if KeptUpTo(log, j - 1, id) && !OverwritesSaved(log, j, id)
       && (OwnCommit(log, j, id) ==> KeptUpTo(log, log[j].actor.since, id)) {
      NextKeeps(log, j, id);
    }
  }

  lemma {:induction false} KeptByInduction(log: seq<Entry>, j: nat, id: MigrationId)
    requires j < |log| && NoneOverwritten(log, j, id) && KeptUpTo(log, 0, id)
    requires forall i :: 0 < i < |log| ==> StepKeeps(log, i, id)
    ensures KeptUpTo(log, j, id)
    decreases j
  {
    if j > 0 {
      assert StepKeeps(log, j, id) && !OverwritesSaved(log, j, id);
      FewerOverwritten(log, j, j - 1, id);
      KeptByInduction(log, j - 1, id);
      if OwnCommit(log, j, id) {
        FewerOverwritten(log, j, log[j].actor.since, id);
        KeptByInduction(log, log[j].actor.since, id);
      }
    }
  }

  lemma KeptUnlessOverwritten(log: seq<Entry>, j: nat, id: MigrationId)
    requires Run(log) && j < |log| && NoneOverwritten(log, j, id)
    ensures KeptUpTo(log, j, id)
  {
    forall i | 0 < i < |log| ensures StepKeeps(log, i, id) {
      StepsKeep(log, i, id);
    }
    KeptByInduction(log, j, id);
  }

  lemma OverwrittenIsLost(log: seq<Entry>, j: nat, id: MigrationId) returns (p: nat)
    requires Run(log) && j < |log| && OverwritesSaved(log, j, id)
    ensures p < j && Violations(log[p].world.disk, id) > Violations(log[j].world.mem, id)
  {
    assert j > 0 && StepOk(log, j);
    var since := log[j].actor.since;
    p :| 0 <= p < j && SavedBump(log, since, p, id);
    assert CalmBetween(log, since, p + 1);
    WindowCounts(log, since, p + 1, id);
  }

  /** Over every run: what was ever saved for a fence is remembered at every later moment, on disk
      and in memory, through crashes, boots and failed saves, exactly when no save of a fence
      operation overwrites a saved count made between its copy and itself. */
  lemma SavedCountsKeptIff(log: seq<Entry>, id: MigrationId)
    requires Run(log)
    ensures (forall j :: 0 <= j < |log| ==> KeptUpTo(log, j, id)) <==> NoneOverwritten(log, |log|, id)
  {
    if NoneOverwritten(log, |log|, id) {
      forall j | 0 <= j < |log| ensures KeptUpTo(log, j, id) {
        KeptUnlessOverwritten(log, j, id);
      }
    } else {
      var j :| 0 <= j < |log| && OverwritesSaved(log, j, id);
      var p := OverwrittenIsLost(log, j, id);
      assert !NotAbove(log[p].world.disk, log[j].world.mem, id);
      assert !KeptUpTo(log, j, id);
    }
  }

  predicate Unblemished(t: Table, id: MigrationId) {
    Violations(t, id) == 0 && WatchdogErrors(t, id) == 0
  }

  /** Counts that are reported as zero were zero in every state file of the run so far, exactly when
      no save of a fence operation has overwritten a saved count. */
  lemma QuiescenceIff(log: seq<Entry>, j: nat, id: MigrationId)
    requires Run(log) && j < |log| && Unblemished(log[j].world.mem, id)
    ensures (forall i :: 0 <= i <= j ==> Unblemished(log[i].world.disk, id)) <==> NoneOverwritten(log, j, id)
  {
    if NoneOverwritten(log, j, id) {
      KeptUnlessOverwritten(log, j, id);
      forall i | 0 <= i <= j ensures Unblemished(log[i].world.disk, id) {
        assert NotAbove(log[i].world.disk, log[j].world.mem, id);
      }
    } else {
      var k :| 0 <= k < |log| && k <= j && OverwritesSaved(log, k, id);
      var p := OverwrittenIsLost(log, k, id);
      assert !Unblemished(log[p].world.disk, id);
    }
  }

  /** The unlocked watchdog counts and saves, as the first step of a run. */
  lemma BumpedRun(t: Table, markers: set<Service>) returns (log: seq<Entry>)
    requires Sound(t, markers)
    ensures log == [Entry(Host, World(t, t, markers, {}, {})), Entry(Unavailable, World(Bumped(t), Bumped(t), markers, {}, {}))]
    ensures Run(log)
  {
    var w := World(t, t, markers, {}, {});
    assert markers + {} == markers;
    assert Good(w);
    log := [Entry(Host, w)];
    BumpLegal(w, true);
    var w' := World(Bumped(t), Bumped(t), markers, {}, {});
    Extend(log, Entry(Unavailable, w'));
    log := log + [Entry(Unavailable, w')];
  }

  /** A run in which it happens: the state file holds a counted violation, then an activation that
      copied the fence before saves its intent, and the counts are zero again everywhere. */
  lemma LostCountRun() returns (log: seq<Entry>)
    ensures |log| == 3 && Run(log) && OverwritesSaved(log, 2, "m")
    ensures !Unblemished(log[1].world.disk, "m")
    ensures Unblemished(log[2].world.mem, "m") && Unblemished(log[2].world.disk, "m")
  {
    var f := Fence("m", "r", ["db.service"], [], true, Active, 1, 0, 0);
    var intent := f.(phase := Activating);
    var t: Table := map["m" := f];
    log := BumpedRun(t, {"db.service"});
    var w1 := Last(log);
    BumpDrifts(t);
    assert DriftedRecord(f, w1.mem["m"]);
    CopyStands(w1, f);
    ExtendSaved(log, intent, Restore(f), 0);
    log := log + [Entry(Commit(0, intent, Restore(f)), w1.(mem := Saved(w1.mem, intent), disk := Saved(w1.mem, intent)))];
    assert Bumps(log, 0, 2, "m") == Bumps(log, 0, 1, "m") + 1;
    assert SavedBump(log, 0, 1, "m");
  }
}
