/** Replacing a synchronised directory by renames (target, apply and backup directories) under a
    durable marker, and the recovery that finishes or undoes an interrupted replacement.

    Each file operation appends the state it leaves to `log`; the process may stop at any entry.
    Copying and removing a tree pass through arbitrary partial contents. */
module FileSwap {
  import opened Wrappers

  /** A tree stands for its manifest; manifest digests being injective, it also stands for its digest. */
  type Tree = seq<string>

  /** Apply and backup directories are named after the manifest they serve. */
  datatype Name = ApplyDir(manifest: Tree) | BackupDir(manifest: Tree)

  datatype Marker = Swapping(prior: Option<Tree>, pending: Tree) | Settled(active: Tree)

  datatype Disk = Disk(target: Option<Tree>, dirs: map<Name, Tree>, marker: Option<Marker>)

  datatype Outcome = Failed | Applied | Replayed

  /** The directory of that name holds exactly this tree. */
  predicate Holds(d: Disk, name: Name, t: Tree) {
    name in d.dirs && d.dirs[name] == t
  }

  /** Where a replacement stands: nothing moved yet (or already undone), the old tree parked in the
      backup with the new one complete, or the new tree in place. */
  predicate Midway(d: Disk, prior: Option<Tree>, pending: Tree) {
    || (d.target == prior && BackupDir(pending) !in d.dirs && (prior.None? ==> Holds(d, ApplyDir(pending), pending)))
    || (d.target.None? && prior.Some? && Holds(d, ApplyDir(pending), pending) && Holds(d, BackupDir(pending), prior.value))
    || d.target == Some(pending)
  }

  predicate Safe(d: Disk) {
    match d.marker
    case None => true
    case Some(Settled(active)) => d.target == Some(active)
    case Some(Swapping(prior, pending)) => Midway(d, prior, pending)
  }

  /** How one file operation may change the target and the marker. */
  predicate Step(d: Disk, d': Disk) {
    match d.marker
    case None =>
      && d'.target == d.target
      && (d'.marker == None || (d'.marker.value.Swapping? && d'.marker.value.prior == d.target && (d.target.None? || d.target.value == [])))
    case Some(Settled(active)) =>
      && d'.target == d.target && d'.marker.Some?
      && (d'.marker == d.marker || (d'.marker.value.Swapping? && d'.marker.value.prior == Some(active)))
    case Some(Swapping(prior, pending)) =>
      && d'.marker.Some?
      && (d'.marker == d.marker ||
          (d'.marker.value.Settled? && d'.target == d.target && (d'.target == prior || d'.target == Some(pending))))
  }

  predicate History(log: seq<Disk>) {
    && |log| > 0
    && (forall i :: 0 <= i < |log| ==> Safe(log[i]))
    && (forall i :: 0 < i < |log| ==> Step(log[i - 1], log[i]))
  }

  /** The tree that a completed recovery leaves. */
  function Recovered(d: Disk): Option<Tree> {
    match d.marker
    case None => d.target
    case Some(Settled(active)) => d.target
    case Some(Swapping(prior, pending)) => if d.target.None? then Some(pending) else d.target
  }

  /** No apply or backup directory of this manifest is in the way once recovery is done. */
  predicate Unobstructed(d: Disk, m: Tree) {
    || (ApplyDir(m) !in d.dirs && BackupDir(m) !in d.dirs)
    || (d.marker.Some? && d.marker.value.Swapping? && d.marker.value.pending == m)
  }

  /** Exactly when an apply of manifest `m` without any failure succeeds. */
  predicate Converges(d: Disk, m: Tree) {
    if d.marker.None? then (d.target.None? || d.target.value == []) && Unobstructed(d, m)
    else Recovered(d) == Some(m) || Unobstructed(d, m)
  }

  /** The replacement never loses the old tree before the new one is complete: at every moment the
      target is the old tree, or the new tree, or is absent while the old tree sits whole in the
      backup and the new one whole in the apply directory. */
  lemma OldOrNewAtEveryMoment(log: seq<Disk>, i: nat)
    requires History(log) && i < |log| && log[i].marker.Some? && log[i].marker.value.Swapping?
    ensures var d, m := log[i], log[i].marker.value;
            || d.target == m.prior
            || d.target == Some(m.pending)
            || (d.target.None? && m.prior.Some? && Holds(d, BackupDir(m.pending), m.prior.value) && Holds(d, ApplyDir(m.pending), m.pending))
  {
    assert Safe(log[i]);
  }

  lemma {:induction false} MarkerPersists(log: seq<Disk>, i: nat, j: nat)
    requires History(log) && i <= j < |log| && log[i].marker.Some?
    ensures log[j].marker.Some?
  {
    if i < j {
      MarkerPersists(log, i, j - 1);
      assert Step(log[j - 1], log[j]);
    }
  }

  /** A tree that was there before any marker: nobody claimed it, and it is not empty. */
  predicate Unclaimed(d: Disk) {
    d.marker.None? && d.target.Some? && d.target.value != []
  }

  /** Over any run, such a tree was and is the target, and no marker is ever written for it. */
  lemma {:induction false} UnclaimedTreeStands(log: seq<Disk>, i: nat, j: nat)
    requires History(log) && i < |log| && j < |log| && Unclaimed(log[i])
    ensures log[j].marker.None? && log[j].target == log[i].target
    decreases if i < j then j - i else i - j
  {
    if i < j {
      UnclaimedTreeStands(log, i, j - 1);
      assert Step(log[j - 1], log[j]);
    } else if j < i {
      assert Step(log[i - 1], log[i]);
      UnclaimedTreeStands(log, i - 1, j);
    }
  }

  /** Over any run, a settled marker names the target's tree, and that tree is the last settled one
      or the pending tree of a replacement started since. */
  lemma {:induction false} SettledLineage(log: seq<Disk>, i: nat, j: nat)
    requires History(log) && i < j < |log|
    requires log[i].marker.Some? && log[i].marker.value.Settled?
    requires log[j].marker.Some? && log[j].marker.value.Settled?
    ensures log[j].target == Some(log[j].marker.value.active)
    ensures log[j].target == log[i].target ||
      exists k :: i < k < j && log[k].marker.Some? && log[k].marker.value.Swapping? && log[j].target == Some(log[k].marker.value.pending)
    decreases j
  {
    assert Safe(log[j]);
    MarkerPersists(log, i, j - 1);
    assert Step(log[j - 1], log[j]);
    if log[j - 1].marker.value.Settled? {
      if i < j - 1 {
        SettledLineage(log, i, j - 1);
      }
    } else {
      SwappingLineage(log, i, j - 1);
    }
  }

  /** The old tree of a replacement under way is the last settled one, or an earlier pending one. */
  lemma {:induction false} SwappingLineage(log: seq<Disk>, i: nat, j: nat)
    requires History(log) && i < j < |log|
    requires log[i].marker.Some? && log[i].marker.value.Settled?
    requires log[j].marker.Some? && log[j].marker.value.Swapping?
    ensures var prior := log[j].marker.value.prior;
      prior == log[i].target ||
      exists k :: i < k < j && log[k].marker.Some? && log[k].marker.value.Swapping? && prior == Some(log[k].marker.value.pending)
    decreases j
  {
    MarkerPersists(log, i, j - 1);
    assert Step(log[j - 1], log[j]);
    assert Safe(log[i]);
    if log[j - 1].marker.value.Settled? {
      assert Safe(log[j - 1]);
      if i < j - 1 {
        SettledLineage(log, i, j - 1);
      }
    } else {
      SwappingLineage(log, i, j - 1);
    }
  }

  class SwapHost {
    var target: Option<Tree>
    var dirs: map<Name, Tree>
    var marker: Option<Marker>
    var log: seq<Disk>

    function Now(): Disk
      reads this
    {
      Disk(target, dirs, marker)
    }

    ghost predicate Valid()
      reads this
    {
      History(log) && log[|log| - 1] == Now()
    }

    constructor (d: Disk)
      requires Safe(d)
      ensures Valid() && Now() == d
    {
      target, dirs, marker, log := d.target, d.dirs, d.marker, [d];
    }

    method Note()
      requires History(log) && Safe(Now()) && Step(log[|log| - 1], Now())
      modifies `log
      ensures Valid() && log == old(log) + [Now()]
    {
      log := log + [Now()];
    }

    method Chance(reliable: bool) returns (ok: bool)
      ensures reliable ==> ok
    {
      ok := *;
      ok := ok || reliable;
    }

    /** Removes a directory tree; a failure or a stop half-way leaves part of it. */
    method RemoveTree(name: Name, reliable: bool) returns (ok: bool)
      requires Valid()
      requires marker.Some? && marker.value.Swapping? ==>
        || target == Some(marker.value.pending)
        || (name == ApplyDir(marker.value.pending) && target.Some?)
        || (name == BackupDir(marker.value.pending) && name !in dirs)
      modifies this
      ensures Valid() && old(log) <= log && target == old(target) && marker == old(marker)
      ensures forall n :: n != name ==> (n in dirs <==> n in old(dirs)) && (n in dirs ==> dirs[n] == old(dirs)[n])
      ensures name !in old(dirs) ==> name !in dirs
      ensures reliable ==> ok
      ensures ok ==> name !in dirs
    {
      if name !in dirs {
        return true;
      }
      var part := *;
      dirs := dirs[name := part];
      Note();
      ok := Chance(reliable);
      if ok {
        dirs := dirs - {name};
        Note();
      }
    }

    method SaveMarker(m: Marker, reliable: bool) returns (ok: bool)
      requires Valid() && Safe(Now().(marker := Some(m))) && Step(Now(), Now().(marker := Some(m)))
      modifies this
      ensures Valid() && old(log) <= log && target == old(target) && dirs == old(dirs)
      ensures marker == if ok then Some(m) else old(marker)
      ensures reliable ==> ok
    {
      ok := Chance(reliable);
      if ok {
        marker := Some(m);
        Note();
      }
    }

    /** Finishes or undoes an interrupted replacement.  It calls itself only after it has put a
        target in place, hence at most once. */
    method RecoverFileSwap(reliable: bool) returns (ok: bool)
      requires Valid()
      modifies this
      ensures Valid() && old(log) <= log
      ensures old(marker).None? || old(marker).value.Settled? ==> ok && Now() == old(Now())
      ensures old(marker).Some? && old(marker).value.Swapping? ==>
        var prior', pending := old(marker).value.prior, old(marker).value.pending;
        && (ok ==> marker.Some? && marker.value.Settled? && target == Some(marker.value.active)
                   && (target == prior' || target == Some(pending)))
        && (!ok ==> marker == old(marker))
        && (reliable ==> ok && target == old(Recovered(Now())) && ApplyDir(pending) !in dirs && BackupDir(pending) !in dirs)
        && (forall n :: n != ApplyDir(pending) && n != BackupDir(pending) ==> (n in dirs <==> n in old(dirs)))
      decreases if target.None? then 1 else 0
    {
      if marker.None? || marker.value.Settled? {
        return true;
      }
      var prior', pending := marker.value.prior, marker.value.pending;
      var applyDir, backupDir := ApplyDir(pending), BackupDir(pending);
      assert Midway(Now(), prior', pending);
      if target.Some? {
        // Building the manifest of the target may fail.
        var readable := Chance(reliable);
        if readable && target == Some(pending) {
          ok := RemoveTree(backupDir, reliable);
          if !ok {
            return;
          }
          var _ := RemoveTree(applyDir, reliable);
          ok := SaveMarker(Settled(pending), reliable);
          return;
        }
        if prior'.Some? && readable && target == prior' {
          var _ := RemoveTree(applyDir, reliable);
          var _ := RemoveTree(backupDir, reliable);
          ok := SaveMarker(Settled(prior'.value), reliable);
          return;
        }
        return false;
      }
      if applyDir in dirs {
        ok := Chance(reliable);
        if !ok {
          return;
        }
        target := Some(dirs[applyDir]);
        dirs := dirs - {applyDir};
        Note();
        ok := RecoverFileSwap(reliable);
        return;
      }
      // A target, an apply tree or both are always there: the source's restore from the backup
      // and its final error are never reached.
      assert false;
    }

    /** Builds the apply directory; on any failure what was built is removed again, if possible. */
    method CopyTree(m: Tree, reliable: bool) returns (ok: bool)
      requires Valid() && ApplyDir(m) !in dirs && (marker.None? || marker.value.Settled?)
      modifies this
      ensures Valid() && old(log) <= log && target == old(target) && marker == old(marker)
      ensures forall n :: n != ApplyDir(m) ==> (n in dirs <==> n in old(dirs)) && (n in dirs ==> dirs[n] == old(dirs)[n])
      ensures ok ==> Holds(Now(), ApplyDir(m), m)
      ensures reliable ==> ok
    {
      var part := *;
      dirs := dirs[ApplyDir(m) := part];
      Note();
      // The manifest of the copy is compared with the expected one.
      ok := Chance(reliable);
      if ok {
        dirs := dirs[ApplyDir(m) := m];
        Note();
      } else {
        var _ := RemoveTree(ApplyDir(m), reliable);
      }
    }

    /** Moves the old tree, if there is one, into the backup directory. */
    method ParkOld(m: Tree, reliable: bool) returns (ok: bool)
      requires Valid() && marker == Some(Swapping(target, m)) && Holds(Now(), ApplyDir(m), m) && BackupDir(m) !in dirs
      modifies this
      ensures Valid() && old(log) <= log && marker == old(marker) && Holds(Now(), ApplyDir(m), m)
      ensures ok ==> target.None?
      ensures ok && old(target).Some? ==> Holds(Now(), BackupDir(m), old(target).value)
      ensures ok && old(target).None? ==> BackupDir(m) !in dirs
      ensures reliable ==> ok
    {
      ok := true;
      if target.Some? {
        ok := Chance(reliable);
        if ok {
          dirs := dirs[BackupDir(m) := target.value];
          target := None;
          Note();
        }
      }
    }

    /** Moves the new tree into place; when that fails the old one is moved back, if possible. */
    method PlaceNew(m: Tree, existed: bool, reliable: bool) returns (ok: bool)
      requires Valid() && marker.Some? && marker.value.Swapping? && marker.value.pending == m
      requires target.None? && Holds(Now(), ApplyDir(m), m)
      requires if existed then marker.value.prior.Some? && Holds(Now(), BackupDir(m), marker.value.prior.value) else BackupDir(m) !in dirs
      modifies this
      ensures Valid() && old(log) <= log && marker == old(marker)
      ensures ok ==> target == Some(m) && ApplyDir(m) !in dirs && (existed || BackupDir(m) !in dirs)
      ensures reliable ==> ok
    {
      ok := Chance(reliable);
      if !ok {
        var undone := Chance(reliable);
        if existed && undone {
          target := Some(dirs[BackupDir(m)]);
          dirs := dirs - {BackupDir(m)};
          Note();
        }
        return;
      }
      target := Some(m);
      dirs := dirs - {ApplyDir(m)};
      Note();
    }

    /** The renames: park the old tree, put the new one in place, settle the marker, drop the backup. */
    method Exchange(m: Tree, reliable: bool) returns (ok: bool)
      requires Valid() && marker == Some(Swapping(target, m)) && Holds(Now(), ApplyDir(m), m) && BackupDir(m) !in dirs
      modifies this
      ensures Valid() && old(log) <= log
      ensures ok ==> target == Some(m) && marker == Some(Settled(m)) && ApplyDir(m) !in dirs && BackupDir(m) !in dirs
      ensures reliable ==> ok
    {
      var existed := target.Some?;
      ok := ParkOld(m, reliable);
      if !ok {
        return;
      }
      ok := PlaceNew(m, existed, reliable);
      if !ok {
        return;
      }
      ok := SaveMarker(Settled(m), reliable);
      if ok && existed {
        ok := RemoveTree(BackupDir(m), reliable);
      }
    }

    method ApplyFileTree(m: Tree, reliable: bool) returns (r: Outcome)
      requires Valid()
      modifies this
      ensures Valid() && old(log) <= log
      ensures r != Failed ==> target == Some(m) && marker == Some(Settled(m))
      // A target that nobody marked is taken only when it is new or empty.
      ensures old(marker).None? && old(target).Some? && old(target).value != [] ==> r == Failed && Now() == old(Now())
      // Left-over directories of this manifest are a collision, unless an interrupted swap left them.
      ensures old(marker).None? || (old(marker).value.Settled? && old(marker).value.active != m) ==>
        (ApplyDir(m) in old(dirs) || BackupDir(m) in old(dirs) ==> r == Failed && Now() == old(Now()))
      ensures reliable && old(marker).None? && (old(target).None? || old(target).value == []) ==>
        (ApplyDir(m) !in old(dirs) && BackupDir(m) !in old(dirs) ==> r == Applied)
      // A tree already in place is a replay that changes nothing.
      ensures old(marker) == Some(Settled(m)) && old(target) == Some(m) && reliable ==> r == Replayed && Now() == old(Now())
      ensures r == Replayed ==> old(marker).Some? && (reliable ==> old(Recovered(Now())) == Some(m))
      // Without failures it succeeds exactly when nothing is in the way.
      ensures reliable ==> (r != Failed <==> old(Converges(Now(), m)))
    {
      var recovered := RecoverFileSwap(reliable);
      if !recovered {
        return Failed;
      }
      assert marker.None? || marker.value.Settled?;
      var readable := Chance(reliable);
      if target.Some? {
        if !readable {
          return Failed;
        }
        if marker.None? {
          if target.value != [] {
            return Failed;
          }
        } else if marker.value.active == m {
          return Replayed;
        }
      }
      var roomy := Chance(reliable);
      if !roomy || ApplyDir(m) in dirs || BackupDir(m) in dirs {
        return Failed;
      }
      r := Replace(m, reliable);
    }

    /** Copies the tree, announces the swap and exchanges the trees. */
    method Replace(m: Tree, reliable: bool) returns (r: Outcome)
      requires Valid() && ApplyDir(m) !in dirs && BackupDir(m) !in dirs
      requires if marker.None? then target.None? || target.value == [] else marker.value.Settled?
      modifies this
      ensures Valid() && old(log) <= log && r != Replayed
      ensures r == Applied ==> target == Some(m) && marker == Some(Settled(m))
      ensures reliable ==> r == Applied
    {
      var copied := CopyTree(m, reliable);
      if !copied {
        return Failed;
      }
      var saved := SaveMarker(Swapping(target, m), reliable);
      if !saved {
        var _ := RemoveTree(ApplyDir(m), reliable);
        return Failed;
      }
      var done := Exchange(m, reliable);
      r := if done then Applied else Failed;
    }

    /** The process stops at any moment of the run so far. */
    method CrashAt(k: nat)
      requires Valid() && 0 < k <= |log|
      modifies this
      ensures Valid() && log == old(log)[..k] && Now() == old(log)[k - 1]
    {
      var d := log[k - 1];
      log := log[..k];
      target, dirs, marker := d.target, d.dirs, d.marker;
    }

    /** Any run: applies of any manifests, with failures anywhere and stops anywhere, also inside
        recovery. */
    method AnyRun(steps: nat)
      requires Valid()
      modifies this
      ensures Valid()
      ensures old(Unclaimed(Now())) ==> target == old(target) && marker.None?
    {
      for i := 0 to steps
        invariant Valid()
        invariant old(Unclaimed(Now())) ==> target == old(target) && marker.None?
      {
        var choice, m, k := *, *, *;
        if choice == 0 && 0 < k <= |log| {
          if Unclaimed(Now()) {
            UnclaimedTreeStands(log, |log| - 1, k - 1);
          }
          CrashAt(k);
        } else {
          var _ := ApplyFileTree(m, false);
        }
      }
    }

    /** Once a stop happened after the swapping marker for `m` was written, one run without failures
        puts `m` in place, and the next one is a replay. */
    method RerunAfterCrash(k: nat, m: Tree) returns (first: Outcome, second: Outcome)
      requires Valid() && 0 < k <= |log|
      requires log[k - 1].marker.Some? && log[k - 1].marker.value.Swapping? && log[k - 1].marker.value.pending == m
      modifies this
      ensures Valid() && first != Failed && second == Replayed
      ensures target == Some(m) && marker == Some(Settled(m))
    {
      CrashAt(k);
      first := ApplyFileTree(m, true);
      second := ApplyFileTree(m, true);
    }
  }
}
