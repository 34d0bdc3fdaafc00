/** The writer-fence broker: it stops the services that write to a database, keeps them stopped
    across crashes and boots, and later restarts exactly those that had been running.

    Every file operation and every service command appends an entry to `log`; a save of the
    state file may fail with the file kept or replaced.  Between any two operations another
    connection may save the shared state, and once requests are served another watchdog pass may
    count on every active fence without taking the lock of fence operations.

    In a `hosted` broker the host starts and stops services between any two steps too.  What the
    operations promise of running services, and of results that hang on them, is promised when it
    does not; the invariant of every moment is kept in either case. */
module WriterFence {
  import opened Wrappers
  import opened FenceState
  import opened FenceSteps
  import opened FenceRules

  class FenceBroker {
    const hosted: bool
    var mem: Table
    var disk: Table
    var markers: set<Service>
    var running: set<Service>
    var lapsed: set<Service>
    var log: seq<Entry>

    function Now(): World
      reads this
    {
      World(mem, disk, markers, running, lapsed)
    }

    ghost predicate Valid()
      reads this
    {
      Run(log) && Last(log) == Now()
    }

    /** The requests are served only in this state: Serve establishes it, every handler keeps it. */
    predicate Serving()
      reads this
    {
      NoneAuthorized(mem)
    }

    /** Any state file loads; the run starts sound exactly when no service is held twice. */
    constructor (file: Table, markers: set<Service>, running: set<Service>, hosted: bool)
      ensures Valid() <==> WellFormed(LoadFences(file)) && Exclusive(LoadFences(file))
      ensures |log| == 1 && this.hosted == hosted
      ensures mem == disk == LoadFences(file) && this.markers == markers && this.running == running
      ensures Guarded(disk, markers) ==> lapsed == {}
      ensures forall id :: id in file && file[id].phase != Unset ==> mem[id] == file[id]
    {
      this.hosted, mem, disk := hosted, LoadFences(file), LoadFences(file);
      this.markers, this.running := markers, running;
      var t := LoadFences(file);
      var bare := if Guarded(t, markers) then {} else
        set id, s | id in t && t[id].active && s in t[id].services && s !in markers :: s;
      lapsed := bare;
      var w := World(t, t, markers, running, bare);
      log := [Entry(Host, w)];
      assert Good(w) <==> WellFormed(t) && Exclusive(t);
    }

    method Note(actor: Actor)
      requires Run(log) && Good(Now()) && Legal(actor, Last(log), Now())
      requires actor.Commit? ==>
        && CalmBetween(log, actor.since, |log|) && SameCount(log[actor.since].world.mem, mem, actor.record.id)
        && (disk == Last(log).disk || SameCount(log[actor.since].world.mem, disk, actor.record.id))
      modifies `log
      ensures Valid() && log == old(log) + [Entry(actor, Now())]
    {
      StepExtends(log, Entry(actor, Now()));
      RunExtends(log, Entry(actor, Now()));
      log := log + [Entry(actor, Now())];
    }

    // -------------------------------------------------------------------------------------
    // Others at work

    /** Another connection accepts an envelope and saves the whole state. */
    method OtherSave()
      requires Valid()
      modifies this
      ensures Valid() && Quietly(old(log), log, hosted, {}) && Uncounted(old(log), log) && Now() == old(Now()).(disk := mem)
    {
      OtherSaveLegal(Now());
      disk := mem;
      Note(Broker);
    }

    /** The watchdog finds no service controller: every active fence counts a violation and an
        error, under the state lock alone. */
    method WatchdogUnavailable(replaced: bool)
      requires Valid()
      modifies this
      ensures Valid() && Quietly(old(log), log, hosted, {}) && |log| == |old(log)| + 1 && log[|log| - 1].actor.Unavailable?
      ensures Now() == old(Now()).(mem := Bumped(old(mem)), disk := if replaced then mem else old(disk))
    {
      BumpLegal(Now(), replaced);
      mem := Bumped(mem);
      if replaced {
        disk := mem;
      }
      Note(Unavailable);
    }

    /** Whatever others do between two steps of an operation. */
    method Meanwhile(request: bool)
      requires Valid()
      modifies this
      ensures Valid() && Quietly(old(log), log, hosted, {})
      ensures Beside(request, old(mem), old(disk), mem, disk)
      ensures Uncounted(old(log), log) ==> mem == old(mem)
      ensures request || Uncounted(old(log), log)
      ensures markers == old(markers) && lapsed == old(lapsed)
      ensures hosted || running == old(running)
    {
      var rounds: int := *;
      while rounds > 0
        invariant Valid() && Quietly(old(log), log, hosted, {})
        invariant Beside(request, old(mem), old(disk), mem, disk)
        invariant Uncounted(old(log), log) ==> mem == old(mem)
        invariant request || Uncounted(old(log), log)
        invariant markers == old(markers) && lapsed == old(lapsed)
        invariant hosted || running == old(running)
      {
        ghost var m, d, l := mem, disk, log;
        OneOther(request);
        BesideTransitive(request, old(mem), old(disk), m, d, mem, disk);
        QuietlyOn(old(log), l, log, hosted, {});
        UncountedOn(old(log), l, log);
        rounds := rounds - 1;
      }
    }

    method OneOther(request: bool)
      requires Valid()
      modifies this
      ensures Valid() && Quietly(old(log), log, hosted, {})
      ensures Beside(request, old(mem), old(disk), mem, disk)
      ensures Uncounted(old(log), log) ==> mem == old(mem)
      ensures request || Uncounted(old(log), log)
      ensures markers == old(markers) && lapsed == old(lapsed)
      ensures hosted || running == old(running)
    {
      var choice, replaced, started, stopped := *, *, *, *;
      if request && choice == 0 {
        BumpDrifts(mem);
        WatchdogUnavailable(replaced);
        assert log[|log| - 1].actor.Unavailable?;
      } else if hosted && choice == 1 {
        HostActs(started, stopped);
      } else {
        OtherSave();
      }
    }

    /** An operator or systemd starts unmarked services and stops any. */
    method HostActs(started: set<Service>, stopped: set<Service>)
      requires Valid()
      modifies this
      ensures Valid() && Quietly(old(log), log, true, {}) && Uncounted(old(log), log)
      ensures mem == old(mem) && disk == old(disk) && markers == old(markers) && lapsed == old(lapsed)
      ensures running == old(running) + (started - markers) - stopped
    {
      HostLegal(Now(), running + (started - markers) - stopped);
      running := running + (started - markers) - stopped;
      Note(Host);
    }

    // -------------------------------------------------------------------------------------
    // Saving

    method AnySave(reliable: bool) returns (outcome: SaveOutcome)
      ensures reliable ==> outcome == SaveOk
    {
      outcome := *;
      if reliable {
        outcome := SaveOk;
      }
    }

    method AnyQuery(reliable: bool) returns (unanswered: Option<nat>)
      ensures reliable ==> unanswered == None
    {
      unanswered := *;
      if reliable {
        unanswered := None;
      }
    }

    method Chance(reliable: bool) returns (ok: bool)
      ensures reliable ==> ok
    {
      ok := *;
      ok := ok || reliable;
    }

    /** One critical section: put a record built from an earlier copy in memory, save the state file
        and, when the save fails, undo the change in memory. */
    method Commit(f: Fence, undo: Undo, since: nat, outcome: SaveOutcome) returns (ok: bool)
      requires Valid() && Admissible(Now(), f) && UndoFits(Now(), f, undo)
      requires CalmBetween(log, since, |log|)
      requires f.violations == Violations(log[since].world.mem, f.id)
      requires f.watchdogErrors == WatchdogErrors(log[since].world.mem, f.id)
      modifies this
      ensures Valid() && old(log) <= log && |log| == |old(log)| + 1 && log[|log| - 1].actor == FenceState.Commit(since, f, undo)
      ensures markers == old(markers) && running == old(running) && lapsed == old(lapsed)
      ensures ok <==> outcome == SaveOk
      ensures ok ==> mem == disk == Saved(old(mem), f)
      ensures !ok ==> mem == Undone(old(mem), f, undo)
      ensures !ok ==> disk == if outcome == FailsReplaced then Saved(old(mem), f) else old(disk)
    {
      var table := Saved(mem, f);
      CommitCounts(mem, f, undo, Now(), log[since].world.mem);
      ok := outcome == SaveOk;
      if ok {
        SaveLegal(Now(), f, undo, since);
        mem, disk := table, table;
      } else {
        FailedSaveLegal(Now(), f, undo, outcome == FailsReplaced, since);
        mem := Undone(mem, f, undo);
        if outcome == FailsReplaced {
          disk := table;
        }
      }
      Note(FenceState.Commit(since, f, undo));
    }

    /** One critical section that reads the record, changes it and saves; memory keeps the change. */
    method Rewrite(f: Fence, outcome: SaveOutcome) returns (ok: bool)
      requires Valid() && Admissible(Now(), f) && StandsFor(Now(), f, f) && f.id in mem
      requires mem[f.id].violations <= f.violations && mem[f.id].watchdogErrors <= f.watchdogErrors
      modifies this
      ensures Valid() && Uncounted(old(log), log)
      ensures markers == old(markers) && running == old(running) && lapsed == old(lapsed)
      ensures ok <==> outcome == SaveOk
      ensures mem == Saved(old(mem), f) && (disk == mem || (!ok && disk == old(disk)))
    {
      var replaced := outcome != FailsKept;
      RewriteLegal(Now(), f, replaced);
      mem := Saved(mem, f);
      if replaced {
        disk := mem;
      }
      Note(FenceState.Watch(f));
      ok := outcome == SaveOk;
    }

    // -------------------------------------------------------------------------------------
    // Services and markers

    method Stop(s: Service, result: StopResult, request: bool) returns (ok: bool)
      requires Valid()
      modifies this
      ensures Valid() && Quietly(old(log), log, hosted, {})
      ensures Beside(request, old(mem), old(disk), mem, disk)
      ensures Uncounted(old(log), log) ==> mem == old(mem)
      ensures request || Uncounted(old(log), log)
      ensures markers == old(markers) && lapsed == old(lapsed)
      ensures hosted || running == if result == FailedRunning then old(running) else old(running) - {s}
      ensures ok <==> result == Stopped
    {
      Meanwhile(request);
      if result != FailedRunning {
        StopLegal(Now(), s);
        ghost var l := log;
        running := running - {s};
        Note(Broker);
        QuietlyOn(old(log), l, log, hosted, {});
        UncountedOn(old(log), l, log);
      }
      ok := result == Stopped;
    }

    /** systemd skips a start while the marker exists, and reports success. */
    method Start(id: MigrationId, s: Service, request: bool, reliable: bool) returns (ok: bool)
      requires Valid()
      requires id in mem && Resumes(mem[id], s)
      requires id in disk && disk[id] == mem[id]
      modifies this
      ensures Valid() && Quietly(old(log), log, hosted, {})
      ensures Beside(request, old(mem), old(disk), mem, disk)
      ensures markers == old(markers) && lapsed == old(lapsed)
      ensures hosted || running == old(running) || (s !in markers && running == old(running) + {s})
      ensures reliable ==> ok && (s !in markers ==> s in running)
    {
      Meanwhile(request);
      BesideInactive(request, old(mem), old(disk), mem, disk, id);
      ok := Chance(reliable);
      var effective := *;
      if s !in markers && (ok || effective) {
        StartLegal(Now(), s);
        ghost var l := log;
        running := running + {s};
        Note(Broker);
        QuietlyOn(old(log), l, log, hosted, {});
      }
    }

    method WriteMarker(s: Service, request: bool)
      requires Valid()
      modifies this
      ensures Valid() && Quietly(old(log), log, hosted, {s})
      ensures Beside(request, old(mem), old(disk), mem, disk)
      ensures Uncounted(old(log), log) ==> mem == old(mem)
      ensures request || Uncounted(old(log), log)
      ensures markers == old(markers) + {s} && lapsed == old(lapsed) - {s}
      ensures hosted || running == old(running)
    {
      Meanwhile(request);
      ghost var l := log;
      MarkerWrittenLegal(Now(), s);
      markers := markers + {s};
      lapsed := lapsed - {s};
      Note(Mark(s));
      QuietlyOn(old(log), l, log, hosted, {s});
      UncountedOn(old(log), l, log);
    }

    method WriteMarkers(services: seq<Service>, n: nat, request: bool)
      requires Valid() && n <= |services|
      modifies this
      ensures Valid() && Quietly(old(log), log, hosted, Names(services))
      ensures Beside(request, old(mem), old(disk), mem, disk)
      ensures Uncounted(old(log), log) ==> mem == old(mem)
      ensures request || Uncounted(old(log), log)
      ensures hosted || running == old(running)
      ensures markers == old(markers) + Names(services[..n])
      ensures lapsed == old(lapsed) - Names(services[..n])
    {
      var i := 0;
      while i < n
        invariant 0 <= i <= n
        invariant Valid() && Quietly(old(log), log, hosted, Names(services))
        invariant Beside(request, old(mem), old(disk), mem, disk)
        invariant Uncounted(old(log), log) ==> mem == old(mem)
        invariant request || Uncounted(old(log), log)
        invariant hosted || running == old(running)
        invariant markers == old(markers) + Names(services[..i])
        invariant lapsed == old(lapsed) - Names(services[..i])
      {
        NamesOneMore(services, i);
        ghost var m, d, l := mem, disk, log;
        WriteMarker(services[i], request);
        BesideTransitive(request, old(mem), old(disk), m, d, mem, disk);
        QuietlyOn(old(log), l, log, hosted, Names(services));
        UncountedOn(old(log), l, log);
        i := i + 1;
      }
    }

    method ActivateInhibitors(services: seq<Service>, fault: InstallFault, request: bool) returns (ok: bool)
      requires Valid()
      modifies this
      ensures Valid() && Quietly(old(log), log, hosted, Names(services))
      ensures Beside(request, old(mem), old(disk), mem, disk)
      ensures Uncounted(old(log), log) ==> mem == old(mem)
      ensures request || Uncounted(old(log), log)
      ensures hosted || running == old(running)
      ensures markers == old(markers) + Names(services[..Reached(services, fault)])
      ensures lapsed == old(lapsed) - Names(services[..Reached(services, fault)])
      ensures ok <==> Installs(services, fault)
      ensures ok ==> Within(services, markers)
    {
      ok := Installs(services, fault);
      assert services[..|services|] == services;
      if fault == Unsafe {
        return;
      }
      WriteMarkers(services, Reached(services, fault), request);
      ghost var m, d, l := mem, disk, log;
      Meanwhile(request);
      BesideTransitive(request, old(mem), old(disk), m, d, mem, disk);
      QuietlyOn(old(log), l, log, hosted, Names(services));
      UncountedOn(old(log), l, log);
    }

    method RemoveMarker(id: MigrationId, s: Service, request: bool)
      requires Valid() && id in mem && Authorizes(mem[id], s) && id in disk && disk[id] == mem[id]
      modifies this
      ensures Valid() && Quietly(old(log), log, hosted, {})
      ensures Beside(request, old(mem), old(disk), mem, disk)
      ensures markers == old(markers) - {s} && lapsed == old(lapsed)
      ensures hosted || running == old(running)
    {
      Meanwhile(request);
      BesideInactive(request, old(mem), old(disk), mem, disk, id);
      ghost var l := log;
      MarkerRemovedLegal(Now(), id, s);
      markers := markers - {s};
      Note(Broker);
      QuietlyOn(old(log), l, log, hosted, {});
    }

    method ReleaseInhibitors(id: MigrationId, services: seq<Service>, request: bool, reliable: bool) returns (ok: bool)
      requires Valid()
      requires id in mem && !mem[id].active && mem[id].phase.ReleaseAuthorized? && mem[id].services == services
      requires id in disk && disk[id] == mem[id]
      modifies this
      ensures Valid() && Quietly(old(log), log, hosted, {})
      ensures Beside(request, old(mem), old(disk), mem, disk)
      ensures lapsed == old(lapsed)
      ensures hosted || running == old(running)
      ensures old(markers) - Names(services) <= markers <= old(markers)
      ensures ok ==> markers == old(markers) - Names(services)
      ensures reliable ==> ok
    {
      var i := 0;
      while i < |services|
        invariant 0 <= i <= |services|
        invariant Valid() && Quietly(old(log), log, hosted, {})
        invariant Beside(request, old(mem), old(disk), mem, disk)
        invariant lapsed == old(lapsed)
        invariant hosted || running == old(running)
        invariant markers == old(markers) - Names(services[..i])
      {
        NamesOneMore(services, i);
        ok := Chance(reliable);
        if !ok {
          return;
        }
        BesideInactive(request, old(mem), old(disk), mem, disk, id);
        ghost var m, d, l := mem, disk, log;
        RemoveMarker(id, services[i], request);
        BesideTransitive(request, old(mem), old(disk), m, d, mem, disk);
        QuietlyOn(old(log), l, log, hosted, {});
        i := i + 1;
      }
      assert services[..|services|] == services;
      ok := Chance(reliable);
    }

    // -------------------------------------------------------------------------------------
    // Queries and loops over services

    /** The answer is true of the moment it is given. */
    method IsActive(s: Service, answered: bool) returns (active: bool, ok: bool)
      ensures ok == answered && (ok && !hosted ==> active == (s in running))
    {
      ok := answered;
      active := s in running;
      if !ok || hosted {
        active := *;
      }
    }

    method VerifyServicesInactive(services: seq<Service>, unanswered: Option<nat>) returns (ok: bool)
      ensures hosted || (ok <==> Idle(services, running) && Answers(unanswered, |services|))
      ensures ok ==> Answers(unanswered, |services|)
    {
      for i := 0 to |services|
        invariant Answers(unanswered, i) && (hosted || forall k :: 0 <= k < i ==> services[k] !in running)
      {
        var active, provable := IsActive(services[i], unanswered != Some(i));
        if !provable || active {
          return false;
        }
      }
      ok := true;
    }

    method VerifyExpectedServiceStates(services: seq<Service>, expected: seq<Service>, unanswered: Option<nat>) returns (ok: bool)
      ensures hosted || (ok <==> ExactlyRunning(services, expected, running) && Answers(unanswered, |services|))
      ensures ok ==> Answers(unanswered, |services|)
    {
      for i := 0 to |services|
        invariant Answers(unanswered, i)
        invariant hosted || forall k :: 0 <= k < i ==> (services[k] in running <==> services[k] in expected)
      {
        var active, provable := IsActive(services[i], unanswered != Some(i));
        if !provable || active != (services[i] in expected) {
          return false;
        }
      }
      ok := true;
    }

    method PreviouslyActiveServices(services: seq<Service>, unanswered: Option<nat>) returns (r: Option<seq<Service>>)
      ensures r.Some? <==> Answers(unanswered, |services|)
      ensures r.Some? ==> hosted || r.value == ActiveAmong(services, running)
      ensures r.Some? ==> forall s :: s in r.value ==> s in services
    {
      var active := [];
      for i := 0 to |services|
        invariant Answers(unanswered, i) && (hosted || active == ActiveAmong(services[..i], running))
        invariant forall s :: s in active ==> s in services
      {
        var isActive, provable := IsActive(services[i], unanswered != Some(i));
        if !provable {
          return None;
        }
        assert services[..i + 1][..i] == services[..i];
        if isActive {
          active := active + [services[i]];
        }
      }
      assert services[..|services|] == services;
      r := Some(active);
    }

    method StopAll(services: seq<Service>, stops: map<Service, StopResult>, request: bool) returns (ok: bool)
      requires Valid()
      modifies this
      ensures Valid() && Quietly(old(log), log, hosted, {})
      ensures Beside(request, old(mem), old(disk), mem, disk)
      ensures markers == old(markers) && lapsed == old(lapsed)
      ensures hosted || running == old(running) - StoppedAmong(services, stops)
      ensures ok <==> AllStop(services, stops)
    {
      ok := true;
      for i := 0 to |services|
        invariant Valid() && Quietly(old(log), log, hosted, {})
        invariant Beside(request, old(mem), old(disk), mem, disk)
        invariant markers == old(markers) && lapsed == old(lapsed)
        invariant hosted || running == old(running) - StoppedAmong(services[..i], stops)
        invariant ok <==> AllStop(services[..i], stops)
      {
        StopsOneMore(services, i, stops);
        ghost var m, d, l := mem, disk, log;
        var stopped := Stop(services[i], StopOf(stops, services[i]), request);
        BesideTransitive(request, old(mem), old(disk), m, d, mem, disk);
        QuietlyOn(old(log), l, log, hosted, {});
        ok := ok && stopped;
      }
      assert services[..|services|] == services;
      ghost var m, d, l := mem, disk, log;
      Meanwhile(request);
      BesideTransitive(request, old(mem), old(disk), m, d, mem, disk);
      QuietlyOn(old(log), l, log, hosted, {});
    }

    static method IntersectsServices(left: seq<Service>, right: seq<Service>) returns (r: bool)
      ensures r <==> Clash(left, right)
    {
      for i := 0 to |left|
        invariant forall a, b :: 0 <= a < i && 0 <= b < |right| ==> Fold(left[a]) != Fold(right[b])
      {
        for j := 0 to |right|
          invariant forall b :: 0 <= b < j ==> Fold(left[i]) != Fold(right[b])
        {
          if Fold(left[i]) == Fold(right[j]) {
            return true;
          }
        }
      }
      r := false;
    }

    /** Only active fences are consulted, not authorized ones. */
    method FencedElsewhere(id: MigrationId, services: seq<Service>) returns (r: bool)
      ensures r <==> ClashesWithActive(mem, id, services)
    {
      var rest := mem.Keys;
      while rest != {}
        invariant rest <= mem.Keys
        invariant forall k :: k in mem && k !in rest && k != id && mem[k].active ==> !Clash(mem[k].services, services)
        decreases rest
      {
        var k :| k in rest;
        if k != id && mem[k].active {
          var clash := IntersectsServices(mem[k].services, services);
          if clash {
            return true;
          }
        }
        rest := rest - {k};
      }
      r := false;
    }

    // -------------------------------------------------------------------------------------
    // Activation

    /** Marks the services, then saves the intent: a crash in between leaves an orphaned marker,
        never a saved fence whose writer may start.  When the save fails the services are stopped
        with no record kept. */
    method DeclareIntent(intent: Fence, luck: Luck) returns (ok: bool)
      requires Valid() && Serving() && IsIntent(mem, intent)
      modifies this
      ensures Valid() && Serving() && old(log) <= log && lapsed <= old(lapsed)
      ensures ok <==> Installs(intent.services, luck.install) && luck.save == SaveOk
      ensures ok ==> mem == disk && Drifted(Saved(old(mem), intent), mem) && mem[intent.id] == intent
      ensures ok ==> Within(intent.services, markers)
      ensures old(markers) <= markers <= old(markers) + Names(intent.services)
      ensures !ok ==> Drifted(old(mem), mem)
      ensures hosted || running == if Installs(intent.services, luck.install) && luck.save != SaveOk
        then old(running) - StoppedAmong(intent.services, luck.stops) else old(running)
    {
      var since, copied := |log| - 1, mem;
      ghost var l := log;
      var marked := ActivateInhibitors(intent.services, luck.install, true);
      DriftedServing(copied, mem);
      if !marked {
        return false;
      }
      StillCalm(l, log, since, hosted, Names(intent.services));
      IntentFits(Now(), copied, intent);
      ghost var m := mem;
      ok := Commit(intent, UndoIntent(copied, intent), since, luck.save);
      IntentOutcome(copied, m, intent);
      if !ok {
        ghost var after := mem;
        var _ := StopAll(intent.services, luck.stops, true);
        DriftedTransitive(copied, after, mem);
        DriftedServing(copied, mem);
      }
    }

    /** Stops the services, looks that they are down, and confirms the record that was copied when
        the intent was saved. */
    method EnforceIntent(intent: Fence, luck: Luck) returns (ok: bool)
      requires Valid() && Serving() && intent.active && intent.phase == Activating && intent.runId != ""
      requires intent.id in mem && mem == disk && mem[intent.id] == intent && Within(intent.services, markers)
      modifies this
      ensures Valid() && Serving() && old(log) <= log && lapsed == old(lapsed) && markers == old(markers)
      ensures hosted || running == old(running) - StoppedAmong(intent.services, luck.stops)
      ensures hosted || (ok <==> AllStop(intent.services, luck.stops) && Answers(luck.verify, |intent.services|) && luck.confirm == SaveOk)
      ensures ok ==> mem == disk && Drifted(Saved(old(mem), intent.(phase := Active)), mem) && mem[intent.id] == intent.(phase := Active)
      ensures ok ==> hosted || Idle(intent.services, running)
      ensures !ok ==>
        || Drifted(old(mem), mem)
        || (Drifted(Saved(old(mem), intent.(runId := "")), mem) && mem[intent.id] == intent.(runId := ""))
      ensures !ok && !hosted ==> if AllStop(intent.services, luck.stops) && Answers(luck.verify, |intent.services|)
        then Drifted(Saved(old(mem), intent.(runId := "")), mem) && mem[intent.id] == intent.(runId := "")
        else Drifted(old(mem), mem)
    {
      var since := |log| - 1;
      ghost var copied, l := mem, log;
      var stopped := StopAll(intent.services, luck.stops, true);
      DriftedServing(copied, mem);
      if !stopped {
        return false;
      }
      var idle := VerifyServicesInactive(intent.services, luck.verify);
      if !idle {
        return false;
      }
      StillCalm(l, log, since, hosted, {});
      assert DriftedRecord(copied[intent.id], mem[intent.id]);
      ConfirmFits(Now(), intent);
      ConfirmOutcome(copied, mem, intent);
      // The record rebuilt after a failed second save carries no run identity.
      ok := Commit(intent.(phase := Active), Restore(intent.(runId := "")), since, luck.confirm);
    }

    /** Declares and enforces an intent. */
    method PursueIntent(intent: Fence, luck: Luck) returns (ok: bool)
      requires Valid() && Serving() && IsIntent(mem, intent)
      modifies this
      ensures Valid() && Serving() && old(log) <= log && lapsed <= old(lapsed)
      ensures DriftedExcept(old(mem), mem, intent.id)
      ensures hosted || Pursued(old(mem), old(running), intent, luck, ok, mem, running)
      ensures ok ==> intent.id in mem && disk == mem && mem[intent.id] == intent.(phase := Active) && Within(intent.services, markers)
      ensures ok ==> hosted || Idle(intent.services, running)
      ensures Installs(intent.services, luck.install) && luck.save == SaveOk ==>
        IsActiveIn(mem, intent.id) && mem[intent.id].services == intent.services && Within(intent.services, markers)
      ensures !(Installs(intent.services, luck.install) && luck.save == SaveOk) ==> Drifted(old(mem), mem)
      ensures old(markers) <= markers <= old(markers) + Names(intent.services)
    {
      ok := DeclareIntent(intent, luck);
      if ok {
        ghost var between := mem;
        ok := EnforceIntent(intent, luck);
        ActivationFrame(old(mem), between, mem, intent);
        if !hosted {
          EnforcedIsPursued(old(mem), old(running), intent, luck, between, ok, mem, running);
        }
        if Drifted(between, mem) {
          assert DriftedRecord(between[intent.id], mem[intent.id]);
        }
      }
    }

    method ActivateWriterFence(id: MigrationId, runId: string, services: seq<Service>, token: int, luck: Luck) returns (ok: bool)
      requires Valid() && Serving()
      modifies this
      ensures Valid() && Serving() && old(log) <= log && lapsed <= old(lapsed)
      ensures DriftedExcept(old(mem), mem, id)
      // When it succeeds, and what it leaves of the fence and of the running services, whatever happens.
      ensures hosted || Activated(old(mem), old(running), id, runId, services, luck, ok, mem, running)
      // The fence is in force: durable, marked, and every service stopped.
      ensures ok ==>
        && id in mem && disk == mem && Within(services, markers)
        && mem[id] == Fence(id, runId, services, mem[id].previouslyActive, true, Active, token,
                            Violations(old(mem), id), WatchdogErrors(old(mem), id))
      ensures ok && !hosted ==>
        mem[id].previouslyActive == Recorded(old(mem), id, services, old(running)) && Idle(services, running)
      // No other service is marked.
      ensures old(markers) <= markers <= old(markers) + Names(services)
      // Once the intent was saved the services are marked; else the fence is as it was.
      ensures Declares(old(mem), id, runId, services, luck) && luck.save == SaveOk && !hosted ==> Within(services, markers)
      ensures !ok ==> Drifted(old(mem), mem) || (IsActiveIn(mem, id) && mem[id].services == services && Within(services, markers))
    {
      if runId == "" {
        return false;
      }
      var found := id in mem;
      var elsewhere := FencedElsewhere(id, services);
      if elsewhere || (found && mem[id].active && (mem[id].runId != runId || mem[id].services != services)) {
        return false;
      }
      var previouslyActive := if found then mem[id].previouslyActive else [];
      if !found || !mem[id].active {
        var observed := PreviouslyActiveServices(services, luck.observe);
        if observed.None? {
          return false;
        }
        previouslyActive := observed.value;
      }
      var intent := Fence(id, runId, services, previouslyActive, true, Activating, token,
                          Violations(mem, id), WatchdogErrors(mem, id));
      if found {
        RecordsKept(mem, id);
      }
      ok := PursueIntent(intent, luck);
      if !hosted {
        PursuedActivates(old(mem), old(running), intent, luck, ok, mem, running);
      }
    }

    // -------------------------------------------------------------------------------------
    // Release

    /** Marks the services again, whatever comes of it: the error is discarded. */
    method Reinstall(f: Fence, fault: InstallFault, request: bool)
      requires Valid() && f.id in mem && mem[f.id] == f && f.phase.ReleaseAuthorized? && !f.active
      modifies this
      ensures Valid() && Quietly(old(log), log, hosted, Names(f.services))
      ensures Shift(request, old(mem), mem) && mem[f.id] == f
      ensures old(markers) <= markers && Within(f.services, markers + lapsed)
      ensures hosted || running == old(running)
      ensures Within(f.services, markers) <==> InstallCompletes(f.services, fault, old(markers))
      ensures InstallCompletes(f.services, fault, old(markers)) ==> lapsed <= old(lapsed)
    {
      var _ := ActivateInhibitors(f.services, fault, request);
      ShiftInactive(request, old(mem), mem, f.id);
      InstallCompletesIff(f.services, fault, old(markers));
      if !Within(f.services, markers) {
        LapseLegal(Now(), f.id);
        ghost var l := log;
        lapsed := lapsed + (Names(f.services) - markers);
        Note(LapsedRollback(f.id));
        QuietlyOn(old(log), l, log, hosted, Names(f.services));
      }
    }

    /** Marks and stops the services of a failed release. */
    method MarkAndStop(f: Fence, fault: InstallFault, request: bool)
      requires Valid() && f.id in mem && mem[f.id] == f && f.phase.ReleaseAuthorized? && !f.active
      modifies this
      ensures Valid() && Quietly(old(log), log, hosted, Names(f.services))
      ensures Shift(request, old(mem), mem) && mem[f.id] == f
      ensures old(markers) <= markers && Within(f.services, markers + lapsed)
      ensures hosted || running <= old(running) <= running + Names(f.services)
      ensures Within(f.services, markers) <==> InstallCompletes(f.services, fault, old(markers))
      ensures InstallCompletes(f.services, fault, old(markers)) ==> lapsed <= old(lapsed)
    {
      ghost var m0, l0 := mem, log;
      Reinstall(f, fault, request);
      ghost var m1, l1 := mem, log;
      var stops := *;
      var _ := StopAll(f.services, stops, request);
      QuietlyOn(l0, l1, log, hosted, Names(f.services));
      ShiftTransitive(request, m0, m1, mem);
      ShiftInactive(request, m0, mem, f.id);
    }

    /** Puts the fence back in force. */
    method RestoreActive(f: Fence, fault: InstallFault, request: bool)
      requires Valid() && f.id in mem && mem[f.id] == f && f.phase.ReleaseAuthorized? && !f.active
      modifies this
      ensures Valid() && ByCompletion(old(log), log, hosted, f, false)
      ensures Shift(request, Saved(old(mem), Reinstated(f)), mem)
      ensures hosted || running <= old(running) <= running + Names(f.services)
      ensures old(markers) <= markers
      // The fence has all its markers exactly when the reinstall completes.
      ensures Within(f.services, markers) <==> InstallCompletes(f.services, fault, old(markers))
      ensures InstallCompletes(f.services, fault, old(markers)) ==> lapsed <= old(lapsed)
    {
      var since := |log| - 1;
      ghost var m0, l0 := mem, log;
      MarkAndStop(f, fault, request);
      ghost var l1 := log;
      StillCalm(l0, log, since, hosted, Names(f.services));
      ReinstatedFits(Now(), f);
      ShiftSaved(request, m0, mem, Reinstated(f));
      var outcome := AnySave(false);
      var _ := Commit(Reinstated(f), Keep, since, outcome);
      QuietThenCompletion(l0, l1, log, hosted, Names(f.services), f, false);
    }

    method StartRecorded(f: Fence, request: bool, reliable: bool) returns (ok: bool)
      requires Valid() && RecordOk(f.id, f) && f.phase.ReleaseAuthorized?
      requires f.id in mem && mem[f.id] == f && f.id in disk && disk[f.id] == f
      modifies this
      ensures Valid() && Quietly(old(log), log, hosted, {})
      ensures Beside(request, old(mem), old(disk), mem, disk)
      ensures markers == old(markers) && lapsed == old(lapsed)
      ensures hosted || old(running) <= running <= old(running) + Names(f.previouslyActive)
      ensures reliable ==> ok
      ensures reliable && !hosted && Names(f.previouslyActive) !! markers ==> running == old(running) + Names(f.previouslyActive)
    {
      var recorded := f.previouslyActive;
      for i := 0 to |recorded|
        invariant Valid() && Quietly(old(log), log, hosted, {})
        invariant Beside(request, old(mem), old(disk), mem, disk)
        invariant markers == old(markers) && lapsed == old(lapsed)
        invariant hosted || old(running) <= running <= old(running) + Names(recorded)
        invariant reliable && !hosted && Names(recorded) !! markers ==> Names(recorded[..i]) <= running
      {
        NamesOneMore(recorded, i);
        BesideInactive(request, old(mem), old(disk), mem, disk, f.id);
        ghost var m, d, l := mem, disk, log;
        var started := Start(f.id, recorded[i], request, reliable);
        BesideTransitive(request, old(mem), old(disk), m, d, mem, disk);
        QuietlyOn(old(log), l, log, hosted, {});
        if !started {
          return false;
        }
      }
      assert recorded[..|recorded|] == recorded;
      ghost var m, d, l := mem, disk, log;
      Meanwhile(request);
      BesideTransitive(request, old(mem), old(disk), m, d, mem, disk);
      QuietlyOn(old(log), l, log, hosted, {});
      ok := true;
    }

    /** Removes the markers and starts the recorded writers of an authorized release. */
    method Unfence(f: Fence, request: bool, reliable: bool) returns (ok: bool)
      requires Valid() && RecordOk(f.id, f) && f.phase.ReleaseAuthorized?
      requires f.id in mem && mem[f.id] == f && f.id in disk && disk[f.id] == f
      modifies this
      ensures Valid() && Quietly(old(log), log, hosted, {})
      ensures Beside(request, old(mem), old(disk), mem, disk)
      ensures lapsed == old(lapsed)
      ensures hosted || old(running) <= running <= old(running) + Names(f.previouslyActive)
      ensures old(markers) - Names(f.services) <= markers <= old(markers)
      ensures ok ==> markers == old(markers) - Names(f.services)
      ensures ok ==> hosted || ExactlyRunning(f.services, f.previouslyActive, running)
      ensures reliable && !hosted ==> (ok <==> OnlyRecorded(f, old(running)))
    {
      ok := ReleaseInhibitors(f.id, f.services, request, reliable);
      if !ok {
        return;
      }
      BesideInactive(request, old(mem), old(disk), mem, disk, f.id);
      ghost var m, d, l := mem, disk, log;
      ok := StartRecorded(f, request, reliable);
      BesideTransitive(request, old(mem), old(disk), m, d, mem, disk);
      QuietlyOn(old(log), l, log, hosted, {});
      if ok {
        var unanswered := AnyQuery(reliable);
        ok := VerifyExpectedServiceStates(f.services, f.previouslyActive, unanswered);
      }
    }

    method CompleteAuthorizedRelease(f: Fence, request: bool, reliable: bool) returns (ok: bool)
      requires Valid() && f.phase.ReleaseAuthorized?
      requires f.id in mem && mem[f.id] == f && f.id in disk && disk[f.id] == f
      modifies this
      ensures Valid() && old(log) <= log
      ensures hosted || (running <= old(running) + Names(f.previouslyActive) && old(running) <= running + Names(f.services))
      ensures old(markers) <= markers + Names(f.services)
      // Released: durable, unmarked, and exactly the recorded writers run.
      ensures ok ==>
        && mem == disk && Shift(request, Saved(old(mem), f.(phase := Released)), mem) && mem[f.id] == f.(phase := Released)
        && markers == old(markers) - Names(f.services) && lapsed == old(lapsed)
        && (hosted || ExactlyRunning(f.services, f.previouslyActive, running))
      // Rolled back: the same fence is in force again.
      ensures !ok ==> Shift(request, Saved(old(mem), Reinstated(f)), mem)
      // Without failures it completes exactly when no unrecorded service of the fence runs.
      ensures reliable && !hosted ==> (ok <==> OnlyRecorded(f, old(running)))
      ensures ByCompletion(old(log), log, hosted, f, ok)
    {
      RecordsKept(mem, f.id);
      var since := |log| - 1;
      ghost var m0, d0, l0 := mem, disk, log;
      var fault := *;
      ok := Unfence(f, request, reliable);
      BesideInactive(request, m0, d0, mem, disk, f.id);
      ghost var m1, l1 := mem, log;
      ShiftSaved(request, m0, m1, f.(phase := Released));
      ShiftSaved(request, m0, m1, Reinstated(f));
      if !ok {
        RestoreActive(f, fault, request);
        QuietThenCompletion(l0, l1, log, hosted, {}, f, false);
        ShiftTransitive(request, Saved(m0, Reinstated(f)), Saved(m1, Reinstated(f)), mem);
        return;
      }
      StillCalm(l0, log, since, hosted, {});
      ok := ConfirmRelease(f, fault, since, request, reliable);
      QuietThenCompletion(l0, l1, log, hosted, {}, f, ok);
      if !ok {
        ShiftTransitive(request, Saved(m0, Reinstated(f)), Saved(m1, Reinstated(f)), mem);
      }
    }

    /** Saves the release; when that fails it is rolled back. */
    method ConfirmRelease(f: Fence, fault: InstallFault, since: nat, request: bool, reliable: bool) returns (ok: bool)
      requires Valid() && f.id in mem && mem[f.id] == f && !f.active && f.phase.ReleaseAuthorized?
      requires CalmBetween(log, since, |log|) && SameCount(log[since].world.mem, mem, f.id)
      modifies this
      ensures Valid() && ByCompletion(old(log), log, hosted, f, ok)
      ensures ok ==>
        && mem == disk == Saved(old(mem), f.(phase := Released))
        && markers == old(markers) && running == old(running) && lapsed == old(lapsed)
      ensures !ok ==>
        && Shift(request, Saved(old(mem), Reinstated(f)), mem) && old(markers) <= markers
        && (hosted || running <= old(running) <= running + Names(f.services))
      ensures reliable ==> ok
    {
      ReleasedFits(Now(), f);
      ghost var l0, m0 := log, mem;
      var outcome := AnySave(reliable);
      ok := Commit(f.(phase := Released), Restore(f), since, outcome);
      if !ok {
        ghost var l1 := log;
        assert mem == m0;
        RestoreActive(f, fault, request);
        CompletionOn(l0, l1, log, hosted, f);
      }
    }

    /** Saves the authorization built from the copy of the fence. */
    method Authorize(fence: Fence, token: int, reliable: bool) returns (ok: bool, ghost m1: Table)
      requires Valid() && Serving() && fence.id in mem && mem[fence.id] == fence && fence.active && fence.runId != ""
      modifies this
      ensures Valid() && old(log) <= log
      ensures markers == old(markers) && lapsed == old(lapsed)
      ensures hosted || running == old(running)
      ensures Drifted(old(mem), m1) && NoneAuthorized(m1)
      ensures mem == Saved(m1, if ok then AuthorizedFence(fence, token) else fence)
      ensures ok ==> disk == mem
      ensures reliable ==> ok
      ensures ByAuthorization(old(log), log, hosted, fence, token)
    {
      var since := |log| - 1;
      ghost var m0, l0 := mem, log;
      Meanwhile(true);
      m1 := mem;
      StillCalm(l0, log, since, hosted, {});
      assert DriftedRecord(m0[fence.id], mem[fence.id]);
      AuthorizeFits(Now(), fence, token);
      DriftedServing(m0, m1);
      ghost var l1 := log;
      var outcome := AnySave(reliable);
      ok := Commit(AuthorizedFence(fence, token), Restore(fence), since, outcome);
      AuthorizationSaved(l0, l1, log, hosted, fence, token);
    }

    /** The authorization is durable before the first marker goes. */
    method ReleaseActive(fence: Fence, token: int, reliable: bool) returns (ok: bool)
      requires Valid() && Serving() && fence.id in mem && mem[fence.id] == fence && fence.active
      requires fence.runId != "" && (hosted || Idle(fence.services, running))
      modifies this
      ensures Valid() && Serving() && old(log) <= log
      ensures DriftedExcept(old(mem), mem, fence.id)
      ensures ok ==>
        && disk == mem && fence.id in mem && mem[fence.id] == fence.(active := false, phase := Released, token := token)
        && markers == old(markers) - Names(fence.services)
      ensures ok && !hosted ==>
        && running <= old(running) + Names(fence.previouslyActive) && old(running) <= running + Names(fence.services)
        && ExactlyRunning(fence.services, fence.previouslyActive, running)
      ensures !ok ==>
        && IsActiveIn(mem, fence.id)
        && mem[fence.id].services == fence.services && mem[fence.id].previouslyActive == fence.previouslyActive
      ensures reliable && !hosted ==> ok
      ensures ByRelease(old(log), log, hosted, fence, token, ok)
    {
      ghost var m1;
      ok, m1 := Authorize(fence, token, reliable);
      ghost var m2, l := mem, log;
      var authorized := AuthorizedFence(fence, token);
      if ok {
        ok := CompleteAuthorizedRelease(authorized, true, reliable);
        AuthorizationThenRelease(old(log), l, log, hosted, fence, token, ok);
        ReleaseFrame(old(mem), m1, m2, mem, authorized);
      } else {
        AuthorizationThenRelease(old(log), l, log, hosted, fence, token, ok);
        ReleaseFrame(old(mem), m1, m2, mem, fence);
      }
    }

    /** Serving excludes authorized fences, so the source's branch that resumes one is dead here. */
    method ReleaseWriterFence(id: MigrationId, runId: string, services: seq<Service>, token: int, reliable: bool) returns (ok: bool)
      requires Valid() && Serving()
      modifies this
      ensures Valid() && Serving() && old(log) <= log
      ensures DriftedExcept(old(mem), mem, id)
      // Without failures it succeeds exactly when its checks hold.
      ensures ok ==> hosted || Releasable(old(mem), id, runId, services, old(running))
      ensures reliable && !hosted && Releasable(old(mem), id, runId, services, old(running)) ==> ok
      ensures ok ==>
        && id in mem && id in disk && disk[id] == mem[id]
        && !mem[id].active && mem[id].phase == Released && mem[id].token == token
        && mem[id].runId == runId && mem[id].services == services
        && (hosted || ExactlyRunning(services, mem[id].previouslyActive, running))
      // Releasing a fence in force unmarks its services and restarts the recorded writers only.
      ensures ok && IsActiveIn(old(mem), id) ==>
        && mem[id].previouslyActive == old(mem)[id].previouslyActive
        && mem[id].violations == old(mem)[id].violations
        && mem[id].watchdogErrors == old(mem)[id].watchdogErrors
        && markers == old(markers) - Names(services)
        && (hosted || (running <= old(running) + Names(old(mem)[id].previouslyActive) && old(running) <= running + Names(services)))
      // Without a fence in force nothing is started, stopped, marked or unmarked.
      ensures !IsActiveIn(old(mem), id) ==> (hosted || running == old(running)) && markers == old(markers)
      // A failed release leaves the fence in force, with the same scope and recorded writers.
      ensures !ok && old(id in mem) ==>
        && id in mem && mem[id].active == old(mem)[id].active
        && mem[id].services == old(mem)[id].services
        && mem[id].previouslyActive == old(mem)[id].previouslyActive
      // The steps it takes; none when it fails without a failure of its own.
      ensures if IsActiveIn(old(mem), id) then ByRelease(old(log), log, hosted, old(mem)[id], token, ok)
              else ByRecording(old(log), log, hosted, id)
      ensures !ok && reliable && !hosted ==> log == old(log)
    {
      if runId == "" {
        return false;
      }
      if id !in mem {
        var unanswered := AnyQuery(reliable);
        var observed := VerifyExpectedServiceStates(services, services, unanswered);
        if !observed {
          return false;
        }
        ok := RecordReleased(Fence(id, runId, services, services, false, Released, token, 0, 0), Delete, reliable);
        return;
      }
      var fence := mem[id];
      RecordsKept(mem, id);
      if fence.runId != runId || fence.services != services || fence.phase == Releasing {
        return false;
      }
      var unanswered := AnyQuery(reliable);
      if !fence.active {
        if fence.phase != Released {
          return false;
        }
        var settled := VerifyExpectedServiceStates(services, fence.previouslyActive, unanswered);
        if !settled {
          return false;
        }
        ok := RecordReleased(fence.(token := token), Restore(fence), reliable);
        return;
      }
      var idle := VerifyServicesInactive(services, unanswered);
      if !idle {
        return false;
      }
      ok := ReleaseActive(fence, token, reliable);
    }

    /** Saves the record of a fence that is not in force. */
    method RecordReleased(f: Fence, undo: Undo, reliable: bool) returns (ok: bool)
      requires Valid() && Serving() && RecordOk(f.id, f) && !f.active && f.phase == Released && f.runId != ""
      requires if f.id in mem then undo == Restore(mem[f.id]) && f == mem[f.id].(token := f.token)
               else undo == Delete && f.violations == 0 && f.watchdogErrors == 0
      modifies this
      ensures Valid() && Serving() && old(log) <= log
      ensures DriftedExcept(old(mem), mem, f.id) && (hosted || running == old(running)) && markers == old(markers)
      ensures ok ==> f.id in mem && mem == disk && mem[f.id] == f
      ensures !ok ==> Drifted(old(mem), mem)
      ensures reliable ==> ok
      ensures ByRecording(old(log), log, hosted, f.id)
    {
      var since := |log| - 1;
      ghost var m0, l0 := mem, log;
      Meanwhile(true);
      StillCalm(l0, log, since, hosted, {});
      ghost var m1 := mem;
      DriftedServing(m0, m1);
      if f.id in m0 {
        ShiftInactive(true, m0, m1, f.id);
        CopyStands(Now(), mem[f.id]);
      }
      var outcome := AnySave(reliable);
      ok := Commit(f, undo, since, outcome);
      ReleasedFrame(m0, m1, f, undo);
    }

    // -------------------------------------------------------------------------------------
    // Verification and the watchdog

    method VerifyWriterFence(id: MigrationId, runId: string, services: seq<Service>, reliable: bool)
      returns (ok: bool, violations: nat, watchdogErrors: nat)
      requires Valid() && Serving()
      modifies this
      ensures Valid() && Serving() && old(log) <= log
      ensures markers == old(markers) && lapsed == old(lapsed) && (hosted || running == old(running))
      ensures DriftedExcept(old(mem), mem, id)
      ensures ok ==>
        && id in mem && id in disk && disk[id] == mem[id]
        && mem[id].active && mem[id].runId == runId && mem[id].services == services
        && (hosted || Idle(services, running))
        && violations == Violations(mem, id) >= Violations(old(mem), id)
        && watchdogErrors == WatchdogErrors(mem, id) >= WatchdogErrors(old(mem), id)
      ensures reliable && !hosted ==> (ok <==> runId != "" && Idle(services, running) && Verifiable(old(mem), id, runId, services))
    {
      ok, violations, watchdogErrors := false, 0, 0;
      var unanswered := AnyQuery(reliable);
      var idle := VerifyServicesInactive(services, unanswered);
      if !idle || runId == "" {
        return;
      }
      ghost var m0 := mem;
      Meanwhile(true);
      VerifiableDrifts(m0, mem, id, runId, services);
      if id !in mem || mem[id].runId != runId || !mem[id].active || mem[id].phase == Releasing || mem[id].services != services {
        return;
      }
      ghost var m1 := mem;
      RecordsKept(mem, id);
      ok := Affirm(id, reliable);
      violations, watchdogErrors := mem[id].violations, mem[id].watchdogErrors;
      AffirmFrame(m0, m1, mem, id);
    }

    /** Reads the fence, confirms its phase and saves. */
    method Affirm(id: MigrationId, reliable: bool) returns (ok: bool)
      requires Valid() && Serving() && id in mem && mem[id].active
      modifies this
      ensures Valid() && Serving() && old(log) <= log
      ensures running == old(running) && markers == old(markers) && lapsed == old(lapsed)
      ensures id in mem && mem == Saved(old(mem), mem[id])
      ensures mem[id] == if old(mem)[id].phase == Activating then old(mem)[id].(phase := Active) else old(mem)[id]
      ensures ok ==> disk == mem
      ensures reliable ==> ok
    {
      var fence := mem[id];
      RecordsKept(mem, id);
      var verified := if fence.phase == Activating then fence.(phase := Active) else fence;
      WatchedFits(Now(), verified);
      var outcome := AnySave(reliable);
      ok := Rewrite(verified, outcome);
    }

    /** One pass over the services of a fence: every service seen or suspected running is stopped. */
    method Sweep(fence: Fence, request: bool, reliable: bool) returns (violated: bool, failed: bool)
      requires Valid()
      modifies this
      ensures Valid() && Quietly(old(log), log, hosted, {})
      ensures Beside(request, old(mem), old(disk), mem, disk)
      ensures Uncounted(old(log), log) ==> mem == old(mem)
      ensures request || Uncounted(old(log), log)
      ensures markers == old(markers) && lapsed == old(lapsed)
      ensures hosted || running <= old(running) <= running + Names(fence.services)
      ensures !hosted && fence.phase == Active && !Idle(fence.services, old(running)) ==> violated
      ensures reliable ==> !failed && (hosted || Idle(fence.services, running))
    {
      violated, failed := false, false;
      var services := fence.services;
      for i := 0 to |services|
        invariant Valid() && Quietly(old(log), log, hosted, {})
        invariant Beside(request, old(mem), old(disk), mem, disk)
        invariant Uncounted(old(log), log) ==> mem == old(mem)
        invariant request || Uncounted(old(log), log)
        invariant markers == old(markers) && lapsed == old(lapsed)
        invariant hosted || running <= old(running) <= running + Names(services[..i])
        invariant !hosted && fence.phase == Active && (exists k :: 0 <= k < i && services[k] in old(running)) ==> violated
        invariant reliable ==> !failed && (hosted || forall k :: 0 <= k < i ==> services[k] !in running)
      {
        NamesOneMore(services, i);
        var answered := Chance(reliable);
        var active, provable := IsActive(services[i], answered);
        if !provable {
          failed := true;
        }
        if !provable || active || fence.phase == Releasing {
          if fence.phase == Active {
            violated := true;
          }
          var result := *;
          if reliable {
            result := Stopped;
          }
          ghost var m, d, l := mem, disk, log;
          var stopped := Stop(services[i], result, request);
          BesideTransitive(request, old(mem), old(disk), m, d, mem, disk);
          QuietlyOn(old(log), l, log, hosted, {});
          UncountedOn(old(log), l, log);
          if !stopped {
            failed := true;
          }
        }
      }
    }

    /** Marks and stops the services of a fence and looks whether they are down. */
    method Enforce(fence: Fence, request: bool, reliable: bool) returns (violated: bool, failed: bool, idle: bool)
      requires Valid()
      modifies this
      ensures Valid() && Quietly(old(log), log, hosted, Names(fence.services))
      ensures Beside(request, old(mem), old(disk), mem, disk)
      ensures Uncounted(old(log), log) ==> mem == old(mem)
      ensures request || Uncounted(old(log), log)
      ensures hosted || running <= old(running) <= running + Names(fence.services)
      ensures old(markers) <= markers <= old(markers) + Names(fence.services) && lapsed <= old(lapsed)
      ensures !hosted && fence.phase == Active && !Idle(fence.services, old(running)) ==> violated
      ensures idle ==> hosted || Idle(fence.services, running)
      ensures !idle ==> violated && failed
      ensures !failed ==> Within(fence.services, markers)
      ensures reliable && !hosted ==> !failed
    {
      var fault := *;
      if reliable {
        fault := NoFault;
      }
      var marked := ActivateInhibitors(fence.services, fault, request);
      ghost var m, d, l := mem, disk, log;
      violated, failed := Sweep(fence, request, reliable);
      BesideTransitive(request, old(mem), old(disk), m, d, mem, disk);
      QuietlyOn(old(log), l, log, hosted, Names(fence.services));
      UncountedOn(old(log), l, log);
      failed := failed || !marked;
      var unanswered := AnyQuery(reliable);
      idle := VerifyServicesInactive(fence.services, unanswered);
      if !idle {
        violated, failed := true, true;
      }
    }

    /** One fence of a pass.  The record is reread before it is counted on: `between` is the table
        then, which is the one at the start but for what others counted. */
    method ReconcileFence(id: MigrationId, request: bool, reliable: bool) returns (ok: bool, ghost between: Table)
      requires Valid() && id in mem && mem[id].active
      modifies this
      ensures Valid() && old(log) <= log && (request || Uncounted(old(log), log))
      ensures Shift(request, old(mem), between) && (Uncounted(old(log), log) ==> between == old(mem))
      ensures id in between && id in mem && mem == Saved(between, mem[id]) && WatchedFrom(between[id], mem[id])
      ensures old(AuthorizedDurably(mem, disk)) ==> AuthorizedDurably(mem, disk)
      ensures hosted || running <= old(running) <= running + Names(mem[id].services)
      ensures old(markers) <= markers <= old(markers) + Names(mem[id].services) && lapsed <= old(lapsed)
      // A writer seen running under a fence in force is counted.
      ensures !hosted && old(mem)[id].phase == Active && !Idle(mem[id].services, old(running)) ==>
        mem[id].violations == between[id].violations + 1
      ensures ok ==>
        && disk == mem && Within(mem[id].services, markers) && (hosted || Idle(mem[id].services, running))
        && mem[id].watchdogErrors == between[id].watchdogErrors
      // A fence found or left short of force counts an error; one in force has its phase confirmed.
      ensures if mem[id].watchdogErrors == between[id].watchdogErrors
        then && Within(mem[id].services, markers) && (hosted || Idle(mem[id].services, running))
             && mem[id].phase == (if between[id].phase in {Activating, Releasing} then Active else between[id].phase)
        else mem[id].watchdogErrors == between[id].watchdogErrors + 1
      ensures reliable && !hosted ==> ok
    {
      var fence := mem[id];
      ghost var m0, d0 := mem, disk;
      var violated, failed, idle := Enforce(fence, request, reliable);
      between := mem;
      ghost var l := log;
      ShiftedActive(request, m0, between, id);
      RecordsKept(mem, id);
      var current := Reviewed(mem[id], violated, failed, idle);
      WatchedFits(Now(), current);
      ghost var d1 := disk;
      var outcome := AnySave(reliable);
      ok := Rewrite(current, outcome);
      UncountedOn(old(log), l, log);
      DurablyKept(request, m0, d0, between, d1, mem, disk, id);
      ok := ok && !failed;
    }

    /** An orphaned marker is refused; so may be any unsafe file. */
    method ValidateMarkers(reliable: bool) returns (ok: bool)
      ensures ok ==> NoOrphan(mem, markers)
      ensures reliable && NoOrphan(mem, markers) ==> ok
    {
      ExpectedIffNoOrphan(mem, markers);
      ok := Chance(reliable);
      ok := ok && markers <= ExpectedMarkers(mem);
    }

    /** The next fence of a pass; `counted` says whether others have counted since it began. */
    method WatchNext(id: MigrationId, ok: bool, request: bool, reliable: bool,
                     ghost counted: bool, ghost t0: Table, ghost ran0: set<Service>, ghost rest: set<MigrationId>)
      returns (ok': bool)
      requires Valid() && id in rest && Watching(counted, t0, mem, rest)
      requires hosted || Progress(counted, t0, ran0, mem, running, rest)
      requires ok && !hosted ==> Clean(counted, t0, mem, markers, running, rest)
      requires NoOrphan(t0, markers)
      modifies this
      ensures Valid() && old(log) <= log && (request || Uncounted(old(log), log))
      ensures Watching(counted || !Uncounted(old(log), log), t0, mem, rest - {id})
      ensures hosted || Progress(counted || !Uncounted(old(log), log), t0, ran0, mem, running, rest - {id})
      ensures ok' ==> ok
      ensures ok' && !hosted ==> Clean(counted || !Uncounted(old(log), log), t0, mem, markers, running, rest - {id})
      ensures old(markers) <= markers && lapsed <= old(lapsed)
      ensures old(AuthorizedDurably(mem, disk)) ==> AuthorizedDurably(mem, disk)
      ensures ok && reliable && !hosted ==> ok'
      ensures ok' ==> disk == mem
      ensures NoOrphan(t0, markers)
    {
      ghost var table, ran, marked := mem, running, markers;
      ghost var between;
      ok', between := ReconcileFence(id, request, reliable);
      ghost var now := counted || !Uncounted(old(log), log);
      ShiftNow(request, now, table, between);
      WatchingAdvances(counted, now, t0, table, rest, id, between, mem);
      ok' := ok && ok';
      MarkedUnder(t0, id, marked, markers);
      if !hosted {
        PassAdvances(counted, now, t0, ran0, table, ran, rest, id, between, mem, running);
        if ok' {
          PassStaysClean(counted, now, t0, table, marked, ran, rest, id, between, mem, markers, running);
        }
      }
    }

    /** Where a pass stands that began with `before` logged and these tables, services and markers. */
    ghost predicate Passing(request: bool, reliable: bool, before: seq<Entry>, t0: Table, d0: Table, ran0: set<Service>,
                            marked0: set<Service>, lapsed0: set<Service>, ok: bool, rest: set<MigrationId>)
      reads this
    {
      && Valid() && before <= log && (request || Uncounted(before, log))
      && marked0 <= markers && lapsed <= lapsed0 && NoOrphan(t0, markers)
      && (AuthorizedDurably(t0, d0) ==> AuthorizedDurably(mem, disk))
      && Watching(!Uncounted(before, log), t0, mem, rest)
      && (hosted || Progress(!Uncounted(before, log), t0, ran0, mem, running, rest))
      && (ok && !hosted ==> Clean(!Uncounted(before, log), t0, mem, markers, running, rest))
      && (reliable && !hosted ==> ok)
      && (ok && t0 == d0 ==> mem == disk)
    }

    method WatchStep(id: MigrationId, ok: bool, request: bool, reliable: bool, ghost before: seq<Entry>, ghost t0: Table, ghost d0: Table,
                     ghost ran0: set<Service>, ghost marked0: set<Service>, ghost lapsed0: set<Service>, ghost rest: set<MigrationId>)
      returns (ok': bool)
      requires Passing(request, reliable, before, t0, d0, ran0, marked0, lapsed0, ok, rest) && id in rest
      modifies this
      ensures Passing(request, reliable, before, t0, d0, ran0, marked0, lapsed0, ok', rest - {id})
    {
      ghost var l := log;
      ok' := WatchNext(id, ok, request, reliable, !Uncounted(before, log), t0, ran0, rest);
      UncountedOn(before, l, log);
    }

    method WatchAll(request: bool, reliable: bool) returns (ok: bool)
      requires Valid() && NoOrphan(mem, markers)
      modifies this
      ensures Passing(request, reliable, old(log), old(mem), old(disk), old(running), old(markers), old(lapsed), ok, {})
    {
      var rest := set id | id in mem && mem[id].active;
      PassBegins(mem, running, markers, rest);
      ok := true;
      while rest != {}
        invariant Passing(request, reliable, old(log), old(mem), old(disk), old(running), old(markers), old(lapsed), ok, rest)
        decreases rest
      {
        var id :| id in rest;
        ok := WatchStep(id, ok, request, reliable, old(log), old(mem), old(disk), old(running), old(markers), old(lapsed), rest);
        rest := rest - {id};
      }
    }

    /** One pass of the watchdog.  At start-up it runs alone; later, beside a request or for one, other
        passes may count without the lock, and then it counts on top of what they counted. */
    method ReconcileWriterFences(request: bool, reliable: bool) returns (ok: bool)
      requires Valid()
      modifies this
      ensures Valid() && old(log) <= log && (ok && !request ==> Uncounted(old(log), log))
      ensures Watched(!Uncounted(old(log), log), old(mem), mem)
      ensures hosted || running <= old(running)
      ensures old(markers) <= markers && lapsed <= old(lapsed)
      ensures old(AuthorizedDurably(mem, disk)) ==> AuthorizedDurably(mem, disk)
      ensures ok && !hosted ==> AllInForce(mem, markers, running)
      // A completed pass has counted every fence in force that a writer violated: at least one more
      // than before, and exactly one more, with no error, when nobody counted beside it.
      ensures ok && !hosted ==>
        forall id :: SawWriter(old(mem), id, old(running)) ==> mem[id].violations > old(mem)[id].violations
      ensures ok && !hosted && Uncounted(old(log), log) ==>
        && (forall id :: SawWriter(old(mem), id, old(running)) ==> mem[id].violations == old(mem)[id].violations + 1)
        && (forall id :: id in mem ==> mem[id].watchdogErrors == old(mem)[id].watchdogErrors)
      // Services of authorized releases are left alone.
      ensures ok && !hosted ==>
        forall id :: id in mem && mem[id].phase.ReleaseAuthorized? ==> Agree(mem[id].services, running, old(running))
      // Without failures it completes exactly when there is no orphaned marker.
      ensures ok ==> NoOrphan(old(mem), old(markers))
      ensures reliable && !hosted && NoOrphan(old(mem), old(markers)) ==> ok
      // Only services of fences in force are marked.
      ensures ok ==> NoOrphan(old(mem), markers)
      ensures ok && old(mem == disk) ==> mem == disk
    {
      var safe := ValidateMarkers(reliable);
      if !safe {
        return false;
      }
      var available := Chance(reliable);
      if !available {
        var replaced := *;
        WatchdogUnavailable(replaced);
        return false;
      }
      ok := WatchAll(request, reliable);
      if ok && !hosted {
        PassEnds(!Uncounted(old(log), log), old(mem), old(running), mem, markers, running);
      }
    }

    /** A request to attest: a pass, then the fences in force as they stand. */
    method AttestWriterFences(reliable: bool) returns (ok: bool, attested: Table)
      requires Valid() && Serving()
      modifies this
      ensures Valid() && Serving() && old(log) <= log && Watched(true, old(mem), mem)
      ensures attested == ActiveOf(mem)
      ensures attested.Keys == set id | id in old(mem) && old(mem)[id].active
      // A writer that ran under a fence in force shows in the attested counts.
      ensures ok && !hosted ==> forall id :: SawWriter(old(mem), id, old(running)) ==>
        id in attested && attested[id].violations > old(mem)[id].violations
    {
      ok := ReconcileWriterFences(true, reliable);
      ghost var passed := mem;
      WatchedMore(old(mem), mem);
      Meanwhile(true);
      WatchedDrifts(old(mem), passed, mem);
      attested := ActiveOf(mem);
      AttestedCounts(old(mem), passed, mem);
    }

    // -------------------------------------------------------------------------------------
    // Start-up

    /** The next authorized release of a start-up. */
    method ResumeNext(id: MigrationId, reliable: bool) returns (ok: bool)
      requires Valid() && AuthorizedDurably(mem, disk) && (hosted || AllInForce(mem, markers, running))
      requires id in mem && mem[id].phase.ReleaseAuthorized?
      modifies this
      ensures Valid() && old(log) <= log
      ensures ok ==> mem == Saved(old(mem), old(mem)[id].(phase := Released)) && old(mem)[id].id == id && !old(mem)[id].active
      ensures ok ==> AuthorizedDurably(mem, disk) && (hosted || AllInForce(mem, markers, running))
      ensures ok && old(NoOrphan(mem, markers)) ==> Accounted(mem, disk, markers)
      ensures hosted ||
        (running <= old(running) + Names(old(mem)[id].services) && old(running) <= running + Names(old(mem)[id].services))
      ensures reliable && !hosted ==> (ok <==> OnlyRecorded(old(mem)[id], old(running)))
    {
      RecordsKept(mem, id);
      ghost var table, marked, ran := mem, markers, running;
      ok := CompleteAuthorizedRelease(mem[id], false, reliable);
      if ok && NoOrphan(table, marked) {
        ReleasedUnmarks(table, id, marked);
      }
      if ok && !hosted {
        forall k | k in table && table[k].active ensures InForce(table[k], markers, running) {
          ReleaseLeavesForce(table, id, k, marked, ran, markers, running);
        }
      }
    }

    /** Where a resumption stands that began with `before` logged in world `w0`. */
    ghost predicate Advancing(reliable: bool, before: seq<Entry>, w0: World, rest: set<MigrationId>)
      reads this
    {
      && Valid() && before <= log
      && AuthorizedDurably(mem, disk) && (hosted || AllInForce(mem, markers, running))
      && Resuming(w0.mem, mem, rest) && (hosted || AgreeOn(mem, rest, running, w0.running))
      && (Accounted(w0.mem, w0.disk, w0.markers) ==> Accounted(mem, disk, markers))
      && (reliable && !hosted ==> DoneCompletable(w0.mem, w0.running, rest))
    }

    method ResumeStep(id: MigrationId, reliable: bool, ghost before: seq<Entry>, ghost w0: World, ghost rest: set<MigrationId>)
      returns (ok: bool)
      requires Advancing(reliable, before, w0, rest) && id in rest
      modifies this
      ensures Valid() && before <= log
      ensures ok ==> Advancing(reliable, before, w0, rest - {id})
      ensures !ok && reliable && !hosted ==> !AllCompletable(w0.mem, w0.running)
    {
      ghost var table, ran := mem, running;
      ok := ResumeNext(id, reliable);
      if ok {
        ResumptionAdvances(w0.mem, table, id, rest);
        if !hosted {
          AgreementAdvances(table, w0.running, ran, id, running, rest);
        }
      }
    }

    method ResumeAuthorizedReleases(reliable: bool) returns (ok: bool)
      requires Valid() && AuthorizedDurably(mem, disk) && (hosted || AllInForce(mem, markers, running))
      modifies this
      ensures Valid() && old(log) <= log
      ensures ok ==> Serving() && (hosted || AllInForce(mem, markers, running))
      // Fences in force are left alone, and none comes into force.
      ensures ok ==> SameActive(old(mem), mem)
      ensures ok && old(Accounted(mem, disk, markers)) ==> Accounted(mem, disk, markers)
      // While requests are served there is nothing to resume.
      ensures old(Serving()) ==> ok && Now() == old(Now())
      // Without failures it completes exactly when no service runs that was not recorded.
      ensures reliable && !hosted ==> (ok <==> AllCompletable(old(mem), old(running)))
    {
      var rest := set id | id in mem && mem[id].phase.ReleaseAuthorized?;
      ResumptionBegins(mem, running, rest);
      while rest != {}
        invariant old(Serving()) ==> rest == {} && Now() == old(Now())
        invariant Advancing(reliable, old(log), old(Now()), rest)
        decreases rest
      {
        var id :| id in rest;
        ok := ResumeStep(id, reliable, old(log), old(Now()), rest);
        if !ok {
          return;
        }
        rest := rest - {id};
      }
      ResumptionEnds(old(mem), mem, old(running));
      ok := true;
    }

    /** One round of the monitor; a request to attest may count beside it. */
    method Monitor(reliable: bool)
      requires Valid() && Serving()
      modifies this
      ensures Valid() && Serving() && old(log) <= log && Watched(true, old(mem), mem)
    {
      var enforced := ReconcileWriterFences(true, reliable);
      WatchedMore(old(mem), mem);
      if enforced {
        var _ := ResumeAuthorizedReleases(reliable);
      }
    }

    /** Start-up: fences are enforced, then authorized releases resumed, then requests served. */
    method Serve(reliable: bool) returns (ok: bool)
      requires Valid() && mem == disk
      modifies this
      ensures Valid() && old(log) <= log
      ensures ok ==> Serving() && (hosted || AllInForce(mem, markers, running))
      ensures ok ==> forall id :: id in old(disk) && old(disk)[id].active ==>
        id in mem && mem[id].active && mem[id].services == old(disk)[id].services
      // Without failures the accept loop is reached exactly when no marker is orphaned and every
      // authorized release can be completed.
      ensures reliable && !hosted ==>
        (ok <==> NoOrphan(old(mem), old(markers)) && AllCompletable(old(mem), old(running)))
      // Then the file is what memory holds, and a held record names every marker.
      ensures ok ==> mem == disk && NoOrphan(mem, markers)
    {
      ok := ReconcileWriterFences(false, reliable);
      if ok {
        WatchedNames(!Uncounted(old(log), log), old(mem), mem, markers);
        if !hosted {
          CompletableKept(old(mem), old(running), mem, running);
        }
        ok := ResumeAuthorizedReleases(reliable);
      }
    }

    // -------------------------------------------------------------------------------------
    // What happens to the broker

    /** The process dies at any moment of the run so far and is started again: memory is what
        the state file holds. */
    method CrashAt(k: nat)
      requires Valid() && 0 < k <= |log|
      modifies this
      ensures Valid() && mem == disk == LoadFences(disk)
      ensures log == old(log)[..k] + [Entry(Crash, old(log)[k - 1].world.(mem := disk))]
      ensures Now() == old(log)[k - 1].world.(mem := old(log)[k - 1].world.disk)
    {
      var w := log[k - 1].world;
      RunPrefix(log, k);
      CrashLegal(w);
      SavedLoadsUnchanged(w.disk);
      log := log[..k];
      mem, disk, markers, running, lapsed := w.disk, w.disk, w.markers, w.running, w.lapsed;
      Note(Crash);
    }

    /** The machine boots after stopping at any moment: systemd starts only unmarked services. */
    method BootAt(k: nat, started: set<Service>)
      requires Valid() && 0 < k <= |log|
      modifies this
      ensures Valid() && mem == disk == old(log)[k - 1].world.disk
      ensures markers == old(log)[k - 1].world.markers && running == started - markers
    {
      var w := log[k - 1].world;
      RunPrefix(log, k);
      BootLegal(w, started - w.markers);
      log := log[..k];
      mem, disk, markers, running, lapsed := w.disk, w.disk, w.markers, started - w.markers, w.lapsed;
      Note(Boot);
    }

    /** Any run: requests, attestations among them, with other passes of the watchdog beside them,
        rounds of the monitor, crashes and boots anywhere, and the host at work between operations
        and, in a hosted broker, between any two steps; in any order. */
    method AnyRun(steps: nat)
      requires Valid() && mem == disk
      modifies this
      ensures Valid()
    {
      var up := false;
      for i := 0 to steps
        invariant Valid() && (up ==> Serving()) && (!up ==> mem == disk)
      {
        var choice, k, id, runId, services, token, names, others, luck, reliable :=
          *, *, *, *, *, *, *, *, *, *;
        if choice == 0 && 0 < k <= |log| {
          CrashAt(k);
          up := false;
        } else if choice == 1 && 0 < k <= |log| {
          BootAt(k, names);
          up := false;
        } else if choice == 2 {
          HostActs(names, others);
        } else if !up {
          up := Serve(reliable);
          if !up {
            CrashAt(|log|);
          }
        } else if choice == 3 {
          var _ := ActivateWriterFence(id, runId, services, token, luck);
        } else if choice == 4 {
          var _ := ReleaseWriterFence(id, runId, services, token, reliable);
        } else if choice == 5 {
          var _, _, _ := VerifyWriterFence(id, runId, services, reliable);
        } else if choice == 6 {
          var _, _ := AttestWriterFences(reliable);
        } else {
          Monitor(reliable);
        }
      }
    }
  }
}
