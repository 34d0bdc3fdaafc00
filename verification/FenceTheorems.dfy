/** What holds over every whole run of the writer-fence broker.  FenceBroker.AnyRun shows that
    whatever the broker, the host, crashes and boots do, the log is a `Run`. */
module FenceTheorems {
  import opened Wrappers
  import opened FenceState
  import opened FenceSteps
  import opened FenceRules
  import opened WriterFence

  /** No rollback of the run left a marker missing. */
  predicate NeverLapsed(log: seq<Entry>) {
    && |log| > 0 && log[0].world.lapsed == {}
    && forall i :: 0 <= i < |log| ==> !log[i].actor.LapsedRollback?
  }

  lemma {:induction false} NothingLapses(log: seq<Entry>, i: nat)
    requires Run(log) && NeverLapsed(log) && i < |log|
    ensures log[i].world.lapsed == {}
  {
    if i > 0 {
      NothingLapses(log, i - 1);
      assert StepOk(log, i);
    }
  }

  /** At every moment every service of a fence that is active on disk has its marker on disk. */
  lemma DurableFencesAreMarked(log: seq<Entry>, i: nat)
    requires Run(log) && NeverLapsed(log) && i < |log|
    ensures Guarded(log[i].world.disk, log[i].world.markers)
    ensures Guarded(log[i].world.mem, log[i].world.markers)
  {
    NothingLapses(log, i);
    assert log[i].world.markers + {} == log[i].world.markers;
  }

  /** At this entry a service is left without its marker: a rollback of a fence that holds it went
      on although the reinstall had failed, or the run starts from a state file with an unmarked
      active fence. */
  predicate LeftUnmarked(log: seq<Entry>, k: nat, s: Service)
    requires k < |log|
  {
    if k == 0 then HeldActively(log[0].world.disk, s)
    else
      && log[k].actor.LapsedRollback? && log[k].actor.id in log[k].world.mem
      && s in log[k].world.mem[log[k].actor.id].services
  }

  /** No marker of this service exists from entry `k` to entry `i`. */
  predicate UnmarkedFrom(log: seq<Entry>, k: nat, i: nat, s: Service) {
    k <= i < |log| && forall m :: k <= m <= i ==> s !in log[m].world.markers
  }

  lemma {:induction false} LapseOrigin(log: seq<Entry>, i: nat, s: Service) returns (k: nat)
    requires Run(log) && i < |log| && s in log[i].world.lapsed
    ensures k <= i && LeftUnmarked(log, k, s) && UnmarkedFrom(log, k, i, s)
  {
    assert Good(log[i].world);
    if i == 0 {
      k := 0;
    } else {
      assert StepOk(log, i);
      if s in log[i - 1].world.lapsed {
        k := LapseOrigin(log, i - 1, s);
      } else {
        k := i;
      }
    }
  }

  /** Over every run: a service of a fence that is active on disk has no marker exactly when some
      rollback went on without it, or the run started without it, and nothing has marked it since. */
  lemma UnmarkedIffLapsed(log: seq<Entry>, i: nat, id: MigrationId, s: Service)
    requires Run(log) && i < |log| && IsActiveIn(log[i].world.disk, id) && s in log[i].world.disk[id].services
    ensures s !in log[i].world.markers <==> exists k :: 0 <= k <= i && LeftUnmarked(log, k, s) && UnmarkedFrom(log, k, i, s)
  {
    var w := log[i].world;
    assert Good(w);
    assert Within(w.disk[id].services, w.markers + w.lapsed);
    if s !in w.markers {
      var k := LapseOrigin(log, i, s);
    }
  }

  /** How a rollback loses a marker, for every fence in force that is alone: a release removes the
      marker of its one service, is rolled back, and the fence is active on disk again without it. */
  lemma LapsedRun(f: Fence, s: Service) returns (log: seq<Entry>)
    requires f.active && f.phase == Active && f.services == [s] && RecordOk(f.id, f)
    requires f.runId != "" && f.violations == 0 && f.watchdogErrors == 0
    ensures Run(log) && Guarded(log[0].world.disk, log[0].world.markers)
    ensures var w := Last(log); w.disk == map[f.id := f] && s !in w.markers
  {
    var authorized := AuthorizedFence(f, f.token);
    log := UnmarkedRun(f, s);
    log := LapseAndReinstate(log, authorized, 1);
    assert Reinstated(authorized) == f;
  }

  lemma LapseAndReinstate(log: seq<Entry>, f: Fence, since: nat) returns (log': seq<Entry>)
    requires Run(log) && f.id in Last(log).mem && Last(log).mem[f.id] == f && !f.active && f.phase.ReleaseAuthorized?
    requires CalmBetween(log, since, |log|) && SameCount(log[since].world.mem, Last(log).mem, f.id)
    ensures Run(log') && log <= log'
    ensures var t := Saved(Last(log).mem, Reinstated(f)); Last(log').disk == t && Last(log').markers == Last(log).markers
  {
    var w := Last(log);
    assert Good(w);
    LapseLegal(w, f.id);
    var w' := w.(lapsed := w.lapsed + (Names(f.services) - w.markers));
    Extend(log, Entry(LapsedRollback(f.id), w'));
    log' := log + [Entry(LapsedRollback(f.id), w')];
    ReinstatedFits(w', f);
    ExtendSaved(log', Reinstated(f), Keep, since);
    var t := Saved(w'.mem, Reinstated(f));
    log' := log' + [Entry(Commit(since, Reinstated(f), Keep), w'.(mem := t, disk := t))];
  }

  /** No step, by anyone, starts a writer whose fence is active on disk. */
  lemma FencedWriterNeverStarts(log: seq<Entry>, i: nat, id: MigrationId, s: Service)
    requires Run(log) && NeverLapsed(log) && 0 < i < |log|
    requires id in log[i - 1].world.disk && log[i - 1].world.disk[id].active
    requires s in log[i - 1].world.disk[id].services
    ensures s in log[i].world.running ==> s in log[i - 1].world.running && !log[i].actor.Boot?
  {
    DurableFencesAreMarked(log, i - 1);
    assert StepOk(log, i);
    assert Within(log[i - 1].world.disk[id].services, log[i - 1].world.markers);
  }

  /** Once a fence stays active on disk and its writer is down, the writer stays down, however
      long the run, with any number of crashes and boots. */
  lemma {:induction false} StoppedWriterStaysStopped(log: seq<Entry>, i: nat, j: nat, id: MigrationId, s: Service)
    requires Run(log) && NeverLapsed(log) && i <= j < |log|
    requires s !in log[i].world.running
    requires forall k :: i <= k <= j ==>
      id in log[k].world.disk && log[k].world.disk[id].active && s in log[k].world.disk[id].services
    ensures s !in log[j].world.running
  {
    if i < j {
      StoppedWriterStaysStopped(log, i, j - 1, id, s);
      FencedWriterNeverStarts(log, j, id, s);
    }
  }

  /** A marker goes away only by a broker step taken while the state file authorizes the release
      of a fence holding the service, and then no active fence holds it. */
  lemma MarkerRemovedOnlyWhenAuthorized(log: seq<Entry>, i: nat, s: Service)
    requires Run(log) && 0 < i < |log|
    requires s in log[i - 1].world.markers && s !in log[i].world.markers
    ensures log[i].actor.Broker? && Authorized(log[i - 1].world.disk, s)
    ensures var t := log[i - 1].world.disk;
            forall id :: id in t && t[id].active ==> s !in t[id].services
  {
    assert StepOk(log, i);
    var t := log[i - 1].world.disk;
    var owner :| owner in t && Authorizes(t[owner], s);
    forall id | id in t && t[id].active ensures s !in t[id].services {
      if s in t[id].services {
        SharedServiceClashes(s, t[owner].services, t[id].services);
      }
    }
  }

  /** Distinct held fences share no service, in memory and on disk, at every moment. */
  lemma HeldFencesAreDisjoint(log: seq<Entry>, i: nat, durable: bool, a: MigrationId, b: MigrationId, s: Service)
    requires Run(log) && i < |log| && a != b
    requires var t := if durable then log[i].world.disk else log[i].world.mem;
             a in t && b in t && Held(t[a]) && Held(t[b]) && s in t[a].services
    ensures s !in (if durable then log[i].world.disk else log[i].world.mem)[b].services
  {
    var t := if durable then log[i].world.disk else log[i].world.mem;
    if s in t[b].services {
      SharedServiceClashes(s, t[a].services, t[b].services);
    }
  }

  /** While a fence stays held in memory its services and recorded writers never change, also
      across a crash. */
  lemma {:induction false} RecordedWritersAreKept(log: seq<Entry>, i: nat, j: nat, id: MigrationId)
    requires Run(log) && i <= j < |log|
    requires forall k :: i <= k <= j ==> id in log[k].world.mem && Held(log[k].world.mem[id])
    ensures log[j].world.mem[id].services == log[i].world.mem[id].services
    ensures log[j].world.mem[id].previouslyActive == log[i].world.mem[id].previouslyActive
    ensures (forall k :: i <= k <= j ==> log[k].world.mem[id].runId != "") ==>
      log[j].world.mem[id].runId == log[i].world.mem[id].runId
    ensures forall s :: s in log[j].world.mem[id].previouslyActive ==> s in log[i].world.mem[id].services
  {
    assert Good(log[j].world);
    assert RecordOk(id, log[j].world.mem[id]);
    if i < j {
      RecordedWritersAreKept(log, i, j - 1, id);
      ScopeStep(log, j, id);
    }
  }

  lemma ScopeStep(log: seq<Entry>, j: nat, id: MigrationId)
    requires Run(log) && 0 < j < |log|
    requires id in log[j - 1].world.mem && Held(log[j - 1].world.mem[id]) && id in log[j].world.mem && Held(log[j].world.mem[id])
    ensures var f, g := log[j - 1].world.mem[id], log[j].world.mem[id];
            && g.services == f.services && g.previouslyActive == f.previouslyActive
            && (f.runId != "" && g.runId != "" ==> g.runId == f.runId)
  {
    assert StepOk(log, j);
    var w, w' := log[j - 1].world, log[j].world;
    if log[j].actor.Crash? || log[j].actor.Boot? {
      assert SameScope(w.disk[id], w.mem[id]);
    } else if log[j].actor.Broker? {
      assert SameScope(w.mem[id], w'.mem[id]);
    }
  }

  /** A fence saved without its run identity is active and without it for the rest of the run. */
  lemma {:induction false} StrandedForever(log: seq<Entry>, i: nat, j: nat, id: MigrationId)
    requires Run(log) && i <= j < |log| && Stranded(log[i].world.disk, id)
    ensures Stranded(log[j].world.disk, id) && Stranded(log[j].world.mem, id)
  {
    assert Good(log[j].world);
    if i < j {
      StrandedForever(log, i, j - 1, id);
      assert StepOk(log, j);
    }
  }

  /** A fence in force refuses every activation exactly when it is stranded, and, unless an old release
      was left half-way, every release and every verification exactly then. */
  lemma RefusedIffStranded(t: Table, id: MigrationId)
    requires Exclusive(t) && IsActiveIn(t, id)
    ensures Stranded(t, id) <==> forall runId, services :: !Admits(t, id, runId, services)
    ensures t[id].phase != Releasing ==>
      && (Stranded(t, id) <==> forall runId, services, running :: !Releasable(t, id, runId, services, running))
      && (Stranded(t, id) <==> forall runId, services :: runId != "" ==> !Verifiable(t, id, runId, services))
  {
    if !Stranded(t, id) {
      var runId, services := t[id].runId, t[id].services;
      assert !ClashesWithActive(t, id, services);
      assert Admits(t, id, runId, services);
      if t[id].phase != Releasing {
        assert Releasable(t, id, runId, services, {}) && Verifiable(t, id, runId, services);
      }
    }
  }

  /** Activation must not run while an authorized fence is in memory: its own checks pass on a
      record that another migration still holds. */
  lemma ActivationNeedsServing()
    ensures exists w, intent ::
      Good(w) && IsIntent(w.mem, intent) && Within(intent.services, w.markers) && !Admissible(w, intent)
  {
    var held := Fence("m", "r", ["db.service"], [], false, ReleaseAuthorized, 1, 0, 0);
    var t: Table := map["m" := held];
    var w := World(t, t, {"db.service"}, {}, {});
    var intent := Fence("n", "r", ["db.service"], [], true, Activating, 1, 0, 0);
    assert Good(w);
    SharedServiceClashes("db.service", held.services, intent.services);
    assert "m" in w.mem && "m" != "n" && Held(w.mem["m"]) && Clash(w.mem["m"].services, intent.services);
    assert ClashesWithHeld(w.mem, "n", intent.services);
    assert IsIntent(w.mem, intent) && Within(intent.services, w.markers) && !Admissible(w, intent);
  }

  /** What a retry records, given the services running before and after a failed first try. */
  lemma {:induction false} RetryRecordsIff(services: seq<Service>, before: set<Service>, after: set<Service>)
    requires after <= before
    ensures ActiveAmong(services, after) == ActiveAmong(services, before)
       <==> forall s :: s in services && s in before ==> s in after
  {
    if forall s :: s in services && s in before ==> s in after {
      SameRunningSameRecord(services, before, after);
    } else {
      var s :| s in services && s in before && s !in after;
      assert s in ActiveAmong(services, before) && s !in ActiveAmong(services, after);
    }
  }

  lemma {:induction false} SameRunningSameRecord(services: seq<Service>, before: set<Service>, after: set<Service>)
    requires forall s :: s in services ==> (s in before <==> s in after)
    ensures ActiveAmong(services, after) == ActiveAmong(services, before)
  {
    if services != [] {
      SameRunningSameRecord(services[..|services| - 1], before, after);
    }
  }

  /** A first try forgets writers: its intent could not be saved and it stopped one of them. */
  predicate Forgets(t: Table, id: MigrationId, runId: string, services: seq<Service>, running: set<Service>, luck: Luck) {
    && !IsActiveIn(t, id) && Declares(t, id, runId, services, luck) && luck.save != SaveOk
    && exists s :: s in services && s in running && StopOf(luck.stops, s) != FailedRunning
  }

  lemma AdmitsAgain(t: Table, u: Table, id: MigrationId, runId: string, services: seq<Service>)
    requires DriftedExcept(t, u, id) && Admits(t, id, runId, services)
    ensures Admits(u, id, runId, services) <==> (IsActiveIn(u, id) ==> u[id].runId == runId && u[id].services == services)
  {
    forall k | k in u && k != id && u[k].active ensures !Clash(u[k].services, services) {
      assert k in t && DriftedRecord(t[k], u[k]);
    }
  }

  /** Two tries in a row, over the tables and services they leave. */
  lemma RetryOutcome(t: Table, ran: set<Service>, id: MigrationId, runId: string, services: seq<Service>, luck: Luck, again: Luck,
                     u: Table, ran': set<Service>, second: bool, v: Table, ran'': set<Service>)
    requires Admits(t, id, runId, services) && DriftedExcept(t, u, id)
    requires Activated(t, ran, id, runId, services, luck, false, u, ran')
    requires Activated(u, ran', id, runId, services, again, second, v, ran'')
    ensures again == GOOD ==> (second <==> !Confirms(t, id, runId, services, luck))
    ensures second ==> id in v
    ensures second ==> (v[id].previouslyActive == Recorded(t, id, services, ran) <==> !Forgets(t, id, runId, services, ran, luck))
  {
    AdmitsAgain(t, u, id, runId, services);
    if Drifted(t, u) && id in t {
      assert DriftedRecord(t[id], u[id]);
    }
    RetryRecordsIff(services, ran, ran');
  }

  /** Activation tried again after a first try that failed.  A second try that goes well is refused
      exactly when the first one failed in its last save, which strands the record; and a second
      try that succeeds records the writers that ran before the first exactly when the first did not
      stop one of them after failing to save its intent. */
  method RetryActivation(b: FenceBroker, id: MigrationId, runId: string, services: seq<Service>, token: int, luck: Luck, again: Luck)
    returns (first: bool, second: bool)
    requires b.Valid() && b.Serving() && !b.hosted && Admits(b.mem, id, runId, services)
    modifies b
    ensures b.Valid() && b.Serving()
    ensures first <==> Confirms(old(b.mem), id, runId, services, luck) && luck.confirm == SaveOk
    ensures second ==> !first
    ensures !first && again == GOOD ==> (second <==> !Confirms(old(b.mem), id, runId, services, luck))
    ensures !first && again == GOOD && !second ==> Stranded(b.mem, id)
    ensures second ==>
      && id in b.mem
      && (b.mem[id].previouslyActive == Recorded(old(b.mem), id, services, old(b.running))
          <==> !Forgets(old(b.mem), id, runId, services, old(b.running), luck))
  {
    second := false;
    first := b.ActivateWriterFence(id, runId, services, token, luck);
    if !first {
      ghost var between, ran := b.mem, b.running;
      second := b.ActivateWriterFence(id, runId, services, token, again);
      RetryOutcome(old(b.mem), old(b.running), id, runId, services, luck, again, between, ran, second, b.mem, b.running);
      if !second && again == GOOD {
        StrandedDrifts(between, b.mem, id);
      }
    }
  }

  lemma StrandedDrifts(t: Table, u: Table, id: MigrationId)
    requires Stranded(t, id) && Drifted(t, u)
    ensures Stranded(u, id)
  {
    assert DriftedRecord(t[id], u[id]);
  }

  /** A last save that fails strands the fence: every later activation is refused. */
  method FailedConfirmStrands() returns (first: bool, second: bool, stranded: bool)
    ensures !first && !second && stranded
  {
    var b := new FenceBroker(map[], {}, {"db.service"}, false);
    first, second := RetryActivation(b, "m", "r", ["db.service"], 1, GOOD.(confirm := FailsReplaced), GOOD);
    stranded := Stranded(b.mem, "m");
  }

  /** A first save that fails forgets the writer: the fence in force records none. */
  method FailedSaveForgets() returns (first: bool, second: bool, recorded: seq<Service>)
    ensures !first && second && "db.service" !in recorded
  {
    var b := new FenceBroker(map[], {}, {"db.service"}, false);
    first := b.ActivateWriterFence("m", "r", ["db.service"], 1, GOOD.(save := FailsKept));
    second := b.ActivateWriterFence("m", "r", ["db.service"], 1, GOOD);
    recorded := b.mem["m"].previouslyActive;
  }

  /** What a release without failures undoes: the services run exactly as before the fence, none is
      left marked, and other fences changed in their counters at most. */
  method FenceAndRelease(b: FenceBroker, id: MigrationId, runId: string, services: seq<Service>, token: int, later: int)
    returns (fenced: bool, released: bool)
    requires b.Valid() && b.Serving() && !b.hosted && !IsActiveIn(b.mem, id)
    modifies b
    ensures b.Valid() && b.Serving()
    ensures fenced <==> Admits(old(b.mem), id, runId, services)
    ensures released == fenced
    ensures released ==>
      && b.running == old(b.running) && DriftedExcept(old(b.mem), b.mem, id)
      && forall s :: s in services ==> s !in b.markers
  {
    released := false;
    fenced := b.ActivateWriterFence(id, runId, services, token, GOOD);
    if fenced {
      ghost var between := b.mem;
      ghost var recorded, ran := b.mem[id].previouslyActive, b.running;
      released := b.ReleaseWriterFence(id, runId, services, later, true);
      DriftsExceptOn(old(b.mem), between, b.mem, id);
      RunningAgain(services, recorded, old(b.running), ran, b.running);
    }
  }

  lemma RunningAgain(services: seq<Service>, recorded: seq<Service>, ran: set<Service>, stopped: set<Service>, again: set<Service>)
    requires recorded == ActiveAmong(services, ran) && stopped == ran - Names(services)
    requires again <= stopped + Names(recorded) && stopped <= again + Names(services) && ExactlyRunning(services, recorded, again)
    ensures again == ran
  {
    forall s ensures s in again <==> s in ran {
    }
  }

  lemma DriftsExceptOn(t: Table, u: Table, v: Table, id: MigrationId)
    requires DriftedExcept(t, u, id) && DriftedExcept(u, v, id)
    ensures DriftedExcept(t, v, id)
  {
    forall k | k != id ensures (k in t <==> k in v) && (k in t && k in v ==> DriftedRecord(t[k], v[k])) {
      if k in t {
        assert DriftedRecord(t[k], u[k]) && DriftedRecord(u[k], v[k]);
      }
    }
  }

  /** A marker written before a crash, its intent not saved: the broker does not start again. */
  method OrphanedMarkerBlocks() returns (served: bool)
    ensures !served
  {
    var b := new FenceBroker(map[], {"db.service"}, {}, false);
    served := b.Serve(true);
  }
}
