/** A release stopped at any of its steps, and what the next start-up makes of it.

    The authorization is saved before the first marker goes, so the state file still names every
    marker of the fence while the release is under way, and start-up resumes it.  The one
    exception is a save of the finished release that reports an error although the file was
    replaced: the rollback marks the services again while the file no longer names them. */
module FenceRestart {
  import opened Wrappers
  import opened FenceState
  import opened FenceSteps
  import opened FenceRules
  import opened WriterFence

  // ---------------------------------------------------------------------------------------
  // The moments of a release

  /** Every marker, but for those of `scope`, is named by a held record of another fence. */
  predicate OthersNamed(t: Table, id: MigrationId, scope: set<Service>, markers: set<Service>) {
    forall s :: s in markers && s !in scope ==> exists k :: k in t && k != id && Held(t[k]) && s in t[k].services
  }

  /** No other held record names a service of `scope`. */
  predicate Apart(t: Table, id: MigrationId, scope: set<Service>) {
    forall k, s :: k in t && k != id && Held(t[k]) && s in scope ==> s !in t[k].services
  }

  predicate SameFence(t: Table, f: Fence) {
    f.id in t && (Held(t[f.id]) ==> t[f.id].services == f.services && t[f.id].previouslyActive == f.previouslyActive)
  }

  predicate NoOtherAuthorized(t: Table, id: MigrationId) {
    forall k :: k in t && k != id ==> !t[k].phase.ReleaseAuthorized?
  }

  predicate Kept(t: Table, f: Fence, markers: set<Service>) {
    SameFence(t, f) && OthersNamed(t, f.id, Names(f.services), markers) && Apart(t, f.id, Names(f.services))
  }

  /** A moment of the release of `f`. */
  predicate MidRelease(w: World, f: Fence) {
    && Kept(w.mem, f, w.markers) && Kept(w.disk, f, w.markers)
    && NoOtherAuthorized(w.mem, f.id)
    && OnlyRecorded(f, w.running) && AllCompletable(w.disk, w.running)
  }

  /** At such a moment the file explains every marker exactly when it still holds the fence, or no
      service of the fence is marked. */
  lemma NamedIffHeld(w: World, f: Fence)
    requires MidRelease(w, f)
    ensures NoOrphan(w.disk, w.markers) <==> Held(w.disk[f.id]) || Names(f.services) !! w.markers
  {
    var t, scope := w.disk, Names(f.services);
    if !(scope !! w.markers) && NoOrphan(t, w.markers) {
      var s :| s in scope && s in w.markers;
      var k :| k in t && (t[k].active || t[k].phase == ReleaseAuthorized) && s in t[k].services;
      assert k == f.id;
    }
    if Held(t[f.id]) || scope !! w.markers {
      forall s | s in w.markers
        ensures exists id :: id in t && (t[id].active || t[id].phase == ReleaseAuthorized) && s in t[id].services
      {
        if s !in scope {
          var k :| k in t && k != f.id && Held(t[k]) && s in t[k].services;
        }
      }
    }
  }

  lemma KeptSaved(t: Table, f: Fence, g: Fence, markers: set<Service>)
    requires Kept(t, f, markers) && g.id == f.id && g.services == f.services && g.previouslyActive == f.previouslyActive
    ensures Kept(Saved(t, g), f, markers)
  {
    var u := Saved(t, g);
    forall s | s in markers && s !in Names(f.services) ensures exists k :: k in u && k != f.id && Held(u[k]) && s in u[k].services {
      var k :| k in t && k != f.id && Held(t[k]) && s in t[k].services;
      assert u[k] == t[k];
    }
  }

  lemma KeptBumped(t: Table, f: Fence, markers: set<Service>)
    requires Kept(t, f, markers)
    ensures Kept(Bumped(t), f, markers)
  {
    var u := Bumped(t);
    forall s | s in markers && s !in Names(f.services) ensures exists k :: k in u && k != f.id && Held(u[k]) && s in u[k].services {
      var k :| k in t && k != f.id && Held(t[k]) && s in t[k].services;
      assert Held(u[k]);
    }
    forall k, s | k in u && k != f.id && Held(u[k]) && s in Names(f.services) ensures s !in u[k].services {
      assert Held(t[k]);
    }
  }

  lemma KeptMarkers(t: Table, f: Fence, markers: set<Service>, markers': set<Service>)
    requires Kept(t, f, markers) && markers' <= markers + Names(f.services)
    ensures Kept(t, f, markers')
  {
    forall s | s in markers' && s !in Names(f.services) ensures exists k :: k in t && k != f.id && Held(t[k]) && s in t[k].services {
      assert s in markers;
    }
  }

  /** A table taken from memory can be completed, the fence being the only one authorized. */
  lemma MemoryCompletable(t: Table, f: Fence, running: set<Service>)
    requires SameFence(t, f) && NoOtherAuthorized(t, f.id) && OnlyRecorded(f, running)
    ensures AllCompletable(t, running)
  {
  }

  /** Only a recorded writer of an authorized release is started, so releases stay completable. */
  lemma StartsKeepCompletable(w: World, w': World)
    requires Good(w) && AllCompletable(w.disk, w.running) && StartsAllowed(Broker, w, w')
    ensures AllCompletable(w.disk, w'.running)
  {
    forall id, s | id in w.disk && w.disk[id].phase.ReleaseAuthorized? && s in w.disk[id].services && s in w'.running && s !in w.running
      ensures s in w.disk[id].previouslyActive
    {
      var k :| k in w.disk && Resumes(w.disk[k], s);
      assert RecordOk(k, w.disk[k]) && s in w.disk[k].services;
      if id != k {
        SharedServiceClashes(s, w.disk[id].services, w.disk[k].services);
      }
    }
  }

  lemma StartsAreRecorded(w: World, w': World, f: Fence)
    requires Good(w) && MidRelease(w, f) && StartsAllowed(Broker, w, w')
    ensures OnlyRecorded(f, w'.running)
  {
    forall s | s in f.services && s in w'.running && s !in w.running ensures s in f.previouslyActive {
      var k :| k in w.disk && Resumes(w.disk[k], s);
      assert RecordOk(k, w.disk[k]) && s in w.disk[k].services;
      assert s in Names(f.services);
      assert k == f.id;
    }
  }

  lemma CalmStep(actor: Actor, w: World, w': World, f: Fence)
    requires Good(w) && MidRelease(w, f) && Legal(actor, w, w') && Calmly(actor, false, Names(f.services))
    ensures MidRelease(w', f)
  {
    KeptMarkers(w.mem, f, w.markers, w'.markers);
    KeptMarkers(w.disk, f, w.markers, w'.markers);
    if actor.Broker? {
      StartsKeepCompletable(w, w');
      StartsAreRecorded(w, w', f);
    } else if actor.Unavailable? {
      KeptBumped(w.mem, f, w'.markers);
    }
    assert w'.disk == w.disk || w'.disk == w'.mem;
    MemoryCompletable(w'.mem, f, w'.running);
  }

  /** A record of the same fence is saved, or its save fails. */
  lemma CommitStep(actor: Actor, w: World, w': World, f: Fence)
    requires MidRelease(w, f) && actor.Commit? && Legal(actor, w, w')
    requires SameRecord(actor.record, f) && (actor.undo.Keep? || (actor.undo.Restore? && SameRecord(actor.undo.prior, f)))
    ensures MidRelease(w', f)
  {
    KeptSaved(w.mem, f, actor.record, w.markers);
    if actor.undo.Restore? {
      KeptSaved(w.mem, f, actor.undo.prior, w.markers);
    }
    MemoryCompletable(Saved(w.mem, actor.record), f, w.running);
  }

  predicate SameRecord(g: Fence, f: Fence) {
    g.id == f.id && g.services == f.services && g.previouslyActive == f.previouslyActive
  }

  lemma ReleaseStep(e: Entry, w: World, f: Fence, token: int, done: bool, last: bool)
    requires Good(w) && MidRelease(w, f) && Legal(e.actor, w, e.world) && Releases(e, false, f, token, done, last)
    ensures MidRelease(e.world, f)
  {
    if Calmly(e.actor, false, Names(f.services)) {
      CalmStep(e.actor, w, e.world, f);
    } else {
      CommitStep(e.actor, w, e.world, f);
    }
  }

  /** The entry reports that the release could not be saved, and the file holds it all the same. */
  predicate LostRelease(e: Entry, id: MigrationId) {
    && e.actor.Commit? && e.actor.record.id == id && e.actor.record.phase == Released
    && id in e.world.mem && e.world.mem[id].phase == ReleaseAuthorized
    && id in e.world.disk && e.world.disk[id].phase == Released
  }

  /** The fence stays held by memory and file until the release is saved or lost. */
  lemma HeldStep(e: Entry, w: World, f: Fence, token: int, done: bool)
    requires Good(w) && f.active && f.id in w.mem && Held(w.mem[f.id]) && f.id in w.disk && Held(w.disk[f.id])
    requires Legal(e.actor, w, e.world) && Releases(e, false, f, token, done, false)
    ensures f.id in e.world.mem && Held(e.world.mem[f.id])
    ensures f.id in e.world.disk && (Held(e.world.disk[f.id]) || (!done && LostRelease(e, f.id)))
  {
  }

  // ---------------------------------------------------------------------------------------
  // The whole call

  lemma {:induction false} ReleaseMoments(log: seq<Entry>, start: nat, i: nat, f: Fence, token: int, done: bool)
    requires Run(log) && start <= i < |log| && MidRelease(log[start].world, f)
    requires ByRelease(log[..start + 1], log, false, f, token, done)
    ensures MidRelease(log[i].world, f)
    decreases i
  {
    if i > start {
      ReleaseMoments(log, start, i - 1, f, token, done);
      assert Good(log[i - 1].world) && StepOk(log, i);
      ReleaseStep(log[i], log[i - 1].world, f, token, done, i == |log| - 1);
    }
  }

  lemma {:induction false} HeldMoments(log: seq<Entry>, start: nat, i: nat, f: Fence, token: int, done: bool)
    requires Run(log) && start <= i < |log| && f.active && ByRelease(log[..start + 1], log, false, f, token, done)
    requires var w := log[start].world; f.id in w.mem && Held(w.mem[f.id]) && f.id in w.disk && Held(w.disk[f.id])
    requires done && start < i ==> i < |log| - 1
    requires done || forall j :: start < j <= i ==> !LostRelease(log[j], f.id)
    ensures var w := log[i].world; f.id in w.mem && Held(w.mem[f.id]) && f.id in w.disk && Held(w.disk[f.id])
    decreases i
  {
    if i > start {
      HeldMoments(log, start, i - 1, f, token, done);
      assert Good(log[i - 1].world) && StepOk(log, i);
      assert Releases(log[i], false, f, token, done, i == |log| - 1);
      HeldStep(log[i], log[i - 1].world, f, token, done);
    }
  }

  /** A moment of a call that records a fence not in force. */
  predicate MidRecording(w: World, id: MigrationId) {
    && NoneAuthorized(w.mem) && OthersNamed(w.mem, id, {}, w.markers)
    && NoOrphan(w.disk, w.markers) && AllCompletable(w.disk, w.running)
  }

  lemma OthersExplain(t: Table, id: MigrationId, markers: set<Service>)
    requires OthersNamed(t, id, {}, markers)
    ensures NoOrphan(t, markers)
  {
    forall s | s in markers ensures exists k :: k in t && (t[k].active || t[k].phase == ReleaseAuthorized) && s in t[k].services {
      var k :| k in t && k != id && Held(t[k]) && s in t[k].services;
    }
  }

  lemma OthersKept(t: Table, u: Table, id: MigrationId, markers: set<Service>, markers': set<Service>)
    requires OthersNamed(t, id, {}, markers) && markers' <= markers
    requires forall k :: k in t && k != id ==> k in u && Held(u[k]) == Held(t[k]) && u[k].services == t[k].services
    ensures OthersNamed(u, id, {}, markers')
  {
    forall s | s in markers' ensures exists k :: k in u && k != id && Held(u[k]) && s in u[k].services {
      var k :| k in t && k != id && Held(t[k]) && s in t[k].services;
      assert Held(u[k]);
    }
  }

  lemma RecordingStep(e: Entry, w: World, id: MigrationId)
    requires Good(w) && MidRecording(w, id) && Legal(e.actor, w, e.world) && Recording(e, false, id)
    ensures MidRecording(e.world, id)
  {
    var w' := e.world;
    assert w'.markers <= w.markers;
    OthersKept(w.mem, w'.mem, id, w.markers, w'.markers);
    OthersExplain(w'.mem, id, w'.markers);
    if e.actor.Commit? {
      OthersKept(w.mem, Saved(w.mem, e.actor.record), id, w.markers, w'.markers);
      OthersExplain(Saved(w.mem, e.actor.record), id, w'.markers);
    } else if e.actor.Broker? {
      StartsKeepCompletable(w, w');
    }
  }

  lemma {:induction false} RecordingMoments(log: seq<Entry>, start: nat, i: nat, id: MigrationId)
    requires Run(log) && start <= i < |log| && MidRecording(log[start].world, id)
    requires ByRecording(log[..start + 1], log, false, id)
    ensures MidRecording(log[i].world, id)
    decreases i
  {
    if i > start {
      RecordingMoments(log, start, i - 1, id);
      assert Good(log[i - 1].world) && StepOk(log, i);
      RecordingStep(log[i], log[i - 1].world, id);
    }
  }

  // ---------------------------------------------------------------------------------------
  // Start-up after the call was cut short

  /** As start-up leaves things, and a successful activation: every marker is named by a held record,
      in memory and in the file, fences in force are durable, and releases can be completed. */
  predicate Settled(w: World) {
    && NoOrphan(w.mem, w.markers) && NoOrphan(w.disk, w.markers) && AllCompletable(w.disk, w.running)
    && forall id :: id in w.mem && w.mem[id].active ==> id in w.disk && Held(w.disk[id])
  }

  /** What Serve establishes. */
  lemma ServedIsSettled(w: World)
    requires NoneAuthorized(w.mem) && Accounted(w.mem, w.disk, w.markers)
    ensures Settled(w)
  {
  }

  /** A successful activation leaves things so, too. */
  lemma ActivatedIsAccounted(t: Table, markers: set<Service>, id: MigrationId, services: seq<Service>, t': Table, markers': set<Service>)
    requires NoneAuthorized(t) && NoOrphan(t, markers) && DriftedExcept(t, t', id) && markers' <= markers + Names(services)
    requires IsActiveIn(t, id) ==> t[id].services == services
    requires IsActiveIn(t', id) && t'[id].services == services
    ensures NoOrphan(t', markers')
  {
    forall s | s in markers' ensures exists k :: k in t' && (t'[k].active || t'[k].phase == ReleaseAuthorized) && s in t'[k].services {
      if s !in services {
        var k :| k in t && (t[k].active || t[k].phase == ReleaseAuthorized) && s in t[k].services;
        assert k != id && k in t' && DriftedRecord(t[k], t'[k]);
      }
    }
  }

  lemma ExplainedByOthers(t: Table, f: Fence, markers: set<Service>)
    requires Exclusive(t) && NoOrphan(t, markers) && f.id in t && Held(t[f.id]) && SameRecord(t[f.id], f)
    ensures Kept(t, f, markers)
  {
    forall s | s in markers && s !in Names(f.services) ensures exists k :: k in t && k != f.id && Held(t[k]) && s in t[k].services {
      var k :| k in t && (t[k].active || t[k].phase == ReleaseAuthorized) && s in t[k].services;
      assert k != f.id && Held(t[k]);
    }
    forall k, s | k in t && k != f.id && Held(t[k]) && s in Names(f.services) ensures s !in t[k].services {
      if s in t[k].services {
        SharedServiceClashes(s, t[f.id].services, t[k].services);
      }
    }
  }

  lemma ReleaseBegins(w: World, id: MigrationId)
    requires Good(w) && Settled(w) && NoneAuthorized(w.mem) && IsActiveIn(w.mem, id) && OnlyRecorded(w.mem[id], w.running)
    ensures w.mem[id].id == id && MidRelease(w, w.mem[id])
  {
    assert RecordOk(id, w.mem[id]) && RecordOk(id, w.disk[id]);
    assert SameScope(w.disk[id], w.mem[id]);
    ExplainedByOthers(w.mem, w.mem[id], w.markers);
    ExplainedByOthers(w.disk, w.mem[id], w.markers);
  }

  lemma RecordingBegins(w: World, id: MigrationId)
    requires Settled(w) && NoneAuthorized(w.mem) && !IsActiveIn(w.mem, id)
    ensures MidRecording(w, id)
  {
    forall s | s in w.markers ensures exists k :: k in w.mem && k != id && Held(w.mem[k]) && s in w.mem[k].services {
      var k :| k in w.mem && (w.mem[k].active || w.mem[k].phase == ReleaseAuthorized) && s in w.mem[k].services;
      assert k != id && Held(w.mem[k]);
    }
  }

  /** The file at this moment still holds the fence, or none of its services is marked. */
  predicate Explained(w: World, f: Fence) {
    (f.id in w.disk && Held(w.disk[f.id])) || Names(f.services) !! w.markers
  }

  /** A stop at any moment of the release of a fence in force: the file explains the markers exactly
      when it still holds the fence or none of its services is marked, and it fails to only after
      the save of the release was lost. */
  lemma ReleaseExplained(log: seq<Entry>, start: nat, i: nat, id: MigrationId, token: int, done: bool)
    requires Run(log) && start <= i < |log|
    requires var w := log[start].world;
      Settled(w) && NoneAuthorized(w.mem) && IsActiveIn(w.mem, id) && OnlyRecorded(w.mem[id], w.running)
    requires ByRelease(log[..start + 1], log, false, log[start].world.mem[id], token, done)
    ensures AllCompletable(log[i].world.disk, log[i].world.running)
    ensures NoOrphan(log[i].world.disk, log[i].world.markers) <==> Explained(log[i].world, log[start].world.mem[id])
    ensures (done && start < i == |log| - 1)
         || Explained(log[i].world, log[start].world.mem[id])
         || (!done && exists j :: start < j <= i && LostRelease(log[j], id))
  {
    var f := log[start].world.mem[id];
    assert Good(log[start].world);
    ReleaseBegins(log[start].world, id);
    ReleaseMoments(log, start, i, f, token, done);
    NamedIffHeld(log[i].world, f);
    if (done || forall j :: start < j <= i ==> !LostRelease(log[j], id)) && !(done && start < i == |log| - 1) {
      HeldMoments(log, start, i, f, token, done);
    }
  }

  lemma RecordingExplained(log: seq<Entry>, start: nat, i: nat, id: MigrationId)
    requires Run(log) && start <= i < |log|
    requires Settled(log[start].world) && NoneAuthorized(log[start].world.mem) && !IsActiveIn(log[start].world.mem, id)
    requires ByRecording(log[..start + 1], log, false, id)
    ensures AllCompletable(log[i].world.disk, log[i].world.running) && NoOrphan(log[i].world.disk, log[i].world.markers)
  {
    RecordingBegins(log[start].world, id);
    RecordingMoments(log, start, i, id);
  }

  /** The log before and after a release; one that succeeds leaves its services unmarked. */
  ghost predicate Undertaken(before: seq<Entry>, call: seq<Entry>, id: MigrationId, token: int, ok: bool) {
    && Run(call) && 0 < |before| && before <= call
    && var t := Last(before).mem;
       if IsActiveIn(t, id)
       then ByRelease(before, call, false, t[id], token, ok) && (ok ==> Names(t[id].services) !! Last(call).markers)
       else ByRecording(before, call, false, id)
  }

  /** What a stop at any moment of a release leaves for the next start-up. */
  lemma CallExplained(before: seq<Entry>, call: seq<Entry>, at: nat, id: MigrationId, token: int, ok: bool)
    requires Undertaken(before, call, id, token, ok) && |before| <= at + 1 <= |call|
    requires Settled(Last(before)) && NoneAuthorized(Last(before).mem)
    requires IsActiveIn(Last(before).mem, id) ==> OnlyRecorded(Last(before).mem[id], Last(before).running)
    ensures var w := call[at].world;
      && AllCompletable(w.disk, w.running)
      && (if IsActiveIn(Last(before).mem, id) then NoOrphan(w.disk, w.markers) <==> Explained(w, Last(before).mem[id])
          else NoOrphan(w.disk, w.markers))
      && (NoOrphan(w.disk, w.markers) || (!ok && exists j :: |before| <= j <= at && LostRelease(call[j], id)))
  {
    var start := |before| - 1;
    assert call[..start + 1] == before && call[start] == before[start];
    if IsActiveIn(Last(before).mem, id) {
      ReleaseExplained(call, start, at, id, token, ok);
    } else {
      RecordingExplained(call, start, at, id);
    }
  }

  method Release(b: FenceBroker, id: MigrationId, runId: string, services: seq<Service>, token: int, reliable: bool) returns (ok: bool)
    requires b.Valid() && b.Serving() && !b.hosted
    modifies b
    ensures b.Valid() && Undertaken(old(b.log), b.log, id, token, ok) && (reliable ==> ok || b.log == old(b.log))
  {
    ok := b.ReleaseWriterFence(id, runId, services, token, reliable);
  }

  /** A release, and a stop after its first `steps` steps. */
  method ReleaseAndStop(b: FenceBroker, id: MigrationId, runId: string, services: seq<Service>, token: int, reliable: bool, steps: nat)
    returns (ok: bool, ghost call: seq<Entry>, ghost at: nat)
    requires b.Valid() && b.Serving() && !b.hosted && Settled(b.Now())
    requires IsActiveIn(b.mem, id) ==> OnlyRecorded(b.mem[id], b.running)
    modifies b
    ensures b.Valid() && old(b.log) <= call && |old(b.log)| > 0
    ensures at == if |old(b.log)| - 1 + steps < |call| then |old(b.log)| - 1 + steps else |call| - 1
    ensures b.mem == b.disk == call[at].world.disk && b.markers == call[at].world.markers && b.running == call[at].world.running
    ensures AllCompletable(b.disk, b.running)
    ensures IsActiveIn(old(b.mem), id) ==> (NoOrphan(b.disk, b.markers) <==> Explained(call[at].world, old(b.mem)[id]))
    ensures !IsActiveIn(old(b.mem), id) || ok || reliable ==> NoOrphan(b.disk, b.markers)
    ensures NoOrphan(b.disk, b.markers) || exists j :: |old(b.log)| <= j <= at && LostRelease(call[j], id)
  {
    var start := |b.log| - 1;
    ok := Release(b, id, runId, services, token, reliable);
    call := b.log;
    var stop := if start + steps < |b.log| then start + steps else |b.log| - 1;
    at := stop;
    CallExplained(old(b.log), call, at, id, token, ok);
    b.CrashAt(stop + 1);
  }

  /** A release that the process does not survive beyond its first `steps` steps, then a start-up
      without failures.  Requests are served again exactly when the file at the stop still holds the
      fence or none of its services is marked.  So they are after a release that succeeds, or whose
      steps do not fail, wherever it stops; and otherwise unless the save of the release was lost. */
  method ReleaseCutShort(b: FenceBroker, id: MigrationId, runId: string, services: seq<Service>, token: int, reliable: bool, steps: nat)
    returns (ok: bool, served: bool, ghost call: seq<Entry>, ghost at: nat)
    requires b.Valid() && b.Serving() && !b.hosted && Settled(b.Now())
    requires IsActiveIn(b.mem, id) ==> OnlyRecorded(b.mem[id], b.running)
    modifies b
    ensures b.Valid() && (served ==> b.Serving())
    ensures old(b.log) <= call && |old(b.log)| > 0
    ensures at == if |old(b.log)| - 1 + steps < |call| then |old(b.log)| - 1 + steps else |call| - 1
    ensures IsActiveIn(old(b.mem), id) ==> (served <==> Explained(call[at].world, old(b.mem)[id]))
    ensures !IsActiveIn(old(b.mem), id) || ok || reliable ==> served
    ensures !served ==> exists j :: |old(b.log)| <= j <= at && LostRelease(call[j], id)
  {
    ok, call, at := ReleaseAndStop(b, id, runId, services, token, reliable, steps);
    served := b.Serve(true);
  }

  /** From start-up over an activation to a release cut short: the whole life of a fence. */
  method ServeFenceRelease(b: FenceBroker, id: MigrationId, runId: string, services: seq<Service>, token: int, later: int,
                           reliable: bool, steps: nat)
    returns (up: bool, fenced: bool, released: bool, again: bool)
    requires b.Valid() && !b.hosted && b.mem == b.disk
    modifies b
    ensures b.Valid()
    ensures up <==> NoOrphan(old(b.disk), old(b.markers)) && AllCompletable(old(b.disk), old(b.running))
    ensures fenced ==> up
    ensures released ==> fenced
    ensures fenced && (released || reliable) ==> again
  {
    fenced, released, again := false, false, false;
    up := b.Serve(true);
    if up {
      ghost var t, markers := b.mem, b.markers;
      fenced := b.ActivateWriterFence(id, runId, services, token, GOOD);
      if fenced {
        ActivatedIsAccounted(t, markers, id, services, b.mem, b.markers);
        ServedIsSettled(b.Now());
        ghost var call, at;
        released, again, call, at := ReleaseCutShort(b, id, runId, services, later, reliable, steps);
      }
    }
  }

  /** How a release is lost, for every fence in force that is alone: its one marker is removed, the
      save of the release reports an error having replaced the file, and the service is marked again.
      A stop there leaves a marker that no held record names. */
  lemma LostReleaseRun(f: Fence, s: Service) returns (log: seq<Entry>)
    requires f.active && f.phase == Active && f.services == [s] && RecordOk(f.id, f)
    requires f.runId != "" && f.violations == 0 && f.watchdogErrors == 0
    ensures Run(log) && Settled(log[0].world) && NoneAuthorized(log[0].world.mem) && log[0].world.mem == map[f.id := f]
    ensures ByRelease(log[..1], log, false, f, f.token, false)
    ensures !NoOrphan(Last(log).disk, Last(log).markers)
  {
    log := UnmarkedRun(f, s);
    assert s in log[0].world.mem[f.id].services;
    log := LoseRelease(log, AuthorizedFence(f, f.token), s);
    LostReleaseSteps(log, f, s);
  }

  /** From a release half-way: its save is lost, and the service is marked again. */
  lemma LoseRelease(log: seq<Entry>, g: Fence, s: Service) returns (log': seq<Entry>)
    requires Run(log) && |log| == 3 && log[2].actor.Broker? && log[1].world.mem == log[2].world.mem == map[g.id := g]
    requires !g.active && g.phase == ReleaseAuthorized && s in g.services
    ensures Run(log') && |log'| == 5 && log <= log' && log'[4].actor == Mark(s)
    ensures log'[3].actor == Commit(1, g.(phase := Released), Restore(g)) && log'[3].world.mem == map[g.id := g]
    ensures !NoOrphan(log'[4].world.disk, log'[4].world.markers)
  {
    assert Good(Last(log));
    ReleasedFits(Last(log), g);
    log' := LoseSave(log, g.(phase := Released), Restore(g), 1);
    log' := MarkAgain(log', s);
    assert s in Last(log').markers && Last(log').disk == map[g.id := g.(phase := Released)];
  }

  lemma MarkAgain(log: seq<Entry>, s: Service) returns (log': seq<Entry>)
    requires Run(log)
    ensures var w := Last(log);
            log' == log + [Entry(Mark(s), w.(markers := w.markers + {s}, lapsed := w.lapsed - {s}))] && Run(log')
  {
    var w := Last(log);
    assert Good(w);
    MarkerWrittenLegal(w, s);
    var e := Entry(Mark(s), w.(markers := w.markers + {s}, lapsed := w.lapsed - {s}));
    Extend(log, e);
    log' := log + [e];
  }

  lemma LostReleaseSteps(log: seq<Entry>, f: Fence, s: Service)
    requires f.services == [s] && |log| == 5
    requires log[1].actor == Commit(0, AuthorizedFence(f, f.token), Restore(f)) && log[2].actor.Broker? && log[4].actor == Mark(s)
    requires var g := AuthorizedFence(f, f.token);
             log[3].actor == Commit(1, g.(phase := Released), Restore(g)) && f.id in log[3].world.mem && log[3].world.mem[f.id] == g
    ensures ByRelease(log[..1], log, false, f, f.token, false)
  {
    forall k | 1 <= k < 5 ensures Releases(log[k], false, f, f.token, false, k == 4) {
    }
  }

  /** A save that fails after the file was replaced. */
  lemma LoseSave(log: seq<Entry>, f: Fence, undo: Undo, since: nat) returns (log': seq<Entry>)
    requires Run(log) && Admissible(Last(log), f) && UndoFits(Last(log), f, undo) && CalmBetween(log, since, |log|)
    requires f.violations == Violations(log[since].world.mem, f.id) && f.watchdogErrors == WatchdogErrors(log[since].world.mem, f.id)
    ensures var w := Last(log);
            var w' := w.(mem := Undone(w.mem, f, undo), disk := Saved(w.mem, f));
            log' == log + [Entry(Commit(since, f, undo), w')] && Run(log')
  {
    var w := Last(log);
    assert Good(w);
    FailedSaveLegal(w, f, undo, true, since);
    CommitCounts(w.mem, f, undo, w, log[since].world.mem);
    var e := Entry(Commit(since, f, undo), w.(mem := Undone(w.mem, f, undo), disk := Saved(w.mem, f)));
    StepExtends(log, e);
    RunExtends(log, e);
    log' := log + [e];
  }
}
