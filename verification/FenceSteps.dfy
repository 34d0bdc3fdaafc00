/** Why each kind of step keeps the invariant and obeys the step rule. */
module FenceSteps {
  import opened FenceState

  predicate ClashesWithHeld(t: Table, id: MigrationId, services: seq<Service>) {
    exists k :: k in t && k != id && Held(t[k]) && Clash(t[k].services, services)
  }

  /** The record may replace the one in memory. */
  predicate Admissible(w: World, f: Fence) {
    && RecordOk(f.id, f)
    && (Held(f) ==> !ClashesWithHeld(w.mem, f.id, f.services))
    && (f.active ==> Within(f.services, w.markers + w.lapsed))
    && (Stranded(w.mem, f.id) ==> f.active && f.runId == "")
    && (f.id in w.mem ==> SameScope(w.mem[f.id], f))
  }

  predicate SameCounts(f: Fence, g: Fence) {
    f.violations == g.violations && f.watchdogErrors == g.watchdogErrors
  }

  /** `prior` may stand in memory when the save of `f` failed, whichever table the state file
      was left with. */
  predicate StandsFor(w: World, f: Fence, prior: Fence) {
    && prior.id == f.id
    && Admissible(w, prior)
    && SameCounts(f, prior)
    && (f.active && f.runId == "" ==> prior.active && prior.runId == "")
    && SameScope(f, prior)
    && (f.id in w.disk ==> SameScope(w.disk[f.id], prior))
  }

  predicate UndoFits(w: World, f: Fence, undo: Undo) {
    match undo
    case Restore(prior) => StandsFor(w, f, prior)
    case Keep => StandsFor(w, f, f)
    case Delete => f.id !in w.mem && f.violations == 0 && f.watchdogErrors == 0 && f.runId != ""
  }

  lemma ClashSymmetric(left: seq<Service>, right: seq<Service>)
    requires Clash(left, right)
    ensures Clash(right, left)
  {
    var i, j :| 0 <= i < |left| && 0 <= j < |right| && Fold(left[i]) == Fold(right[j]);
    assert Fold(right[j]) == Fold(left[i]);
  }

  /** A table stays sound when an admissible record is written into it. */
  lemma SavedSound(w: World, f: Fence)
    requires Good(w) && Admissible(w, f)
    ensures Sound(Saved(w.mem, f), w.markers + w.lapsed)
  {
    var t := Saved(w.mem, f);
    forall a, b | a in t && b in t && a != b && Held(t[a]) && Held(t[b])
      ensures !Clash(t[a].services, t[b].services)
    {
      if Clash(t[a].services, t[b].services) {
        ClashSymmetric(t[a].services, t[b].services);
      }
    }
  }

  lemma SaveLegal(w: World, f: Fence, undo: Undo, since: nat)
    requires Good(w) && Admissible(w, f)
    ensures var t := Saved(w.mem, f);
            Good(w.(mem := t, disk := t)) && Legal(Commit(since, f, undo), w, w.(mem := t, disk := t))
  {
    SavedSound(w, f);
  }

  lemma RestoredMem(w: World, f: Fence, prior: Fence)
    requires Good(w) && Admissible(w, f) && StandsFor(w, f, prior)
    ensures var m := Saved(w.mem, prior);
            && StaysStranded(w.mem, m) && ScopeKept(w.mem, m)
            && StaysStranded(w.disk, m) && ScopeKept(w.disk, m)
            && StaysStranded(Saved(w.mem, f), m) && ScopeKept(Saved(w.mem, f), m)
  {
  }

  lemma UndoneMem(w: World, f: Fence, undo: Undo)
    requires Good(w) && Admissible(w, f) && UndoFits(w, f, undo)
    ensures var m := Undone(w.mem, f, undo);
            && Sound(m, w.markers + w.lapsed)
            && StaysStranded(w.mem, m) && ScopeKept(w.mem, m)
            && StaysStranded(w.disk, m) && ScopeKept(w.disk, m)
            && StaysStranded(Saved(w.mem, f), m) && ScopeKept(Saved(w.mem, f), m)
  {
    match undo
    case Restore(prior) =>
      SavedSound(w, prior);
      RestoredMem(w, f, prior);
    case Keep =>
      SavedSound(w, f);
      RestoredMem(w, f, f);
    case Delete => assert w.mem - {f.id} == w.mem;
  }

  lemma FailedSaveGood(w: World, f: Fence, undo: Undo, replaced: bool)
    requires Good(w) && Admissible(w, f) && UndoFits(w, f, undo)
    ensures Good(w.(mem := Undone(w.mem, f, undo), disk := if replaced then Saved(w.mem, f) else w.disk))
  {
    UndoneMem(w, f, undo);
    SavedSound(w, f);
  }

  lemma FailedSaveLegal(w: World, f: Fence, undo: Undo, replaced: bool, since: nat)
    requires Good(w) && Admissible(w, f) && UndoFits(w, f, undo)
    ensures var w' := w.(mem := Undone(w.mem, f, undo), disk := if replaced then Saved(w.mem, f) else w.disk);
            Good(w') && Legal(Commit(since, f, undo), w, w')
  {
    FailedSaveGood(w, f, undo, replaced);
    UndoneMem(w, f, undo);
  }

  /** A record rewritten from its present value, with nothing counted taken back. */
  lemma RewriteLegal(w: World, f: Fence, replaced: bool)
    requires Good(w) && Admissible(w, f) && StandsFor(w, f, f) && f.id in w.mem
    requires w.mem[f.id].violations <= f.violations && w.mem[f.id].watchdogErrors <= f.watchdogErrors
    ensures var t := Saved(w.mem, f);
            var w' := w.(mem := t, disk := if replaced then t else w.disk);
            Good(w') && Legal(Watch(f), w, w')
  {
    SavedSound(w, f);
    RestoredMem(w, f, f);
  }

  /** Another connection saving the shared state while a fence operation is under way. */
  lemma OtherSaveLegal(w: World)
    requires Good(w)
    ensures Good(w.(disk := w.mem)) && Legal(Broker, w, w.(disk := w.mem))
  {
  }

  lemma MarkerWrittenLegal(w: World, s: Service)
    requires Good(w)
    ensures var w' := w.(markers := w.markers + {s}, lapsed := w.lapsed - {s});
            Good(w') && Legal(Mark(s), w, w')
  {
    var w' := w.(markers := w.markers + {s}, lapsed := w.lapsed - {s});
    assert w.markers + w.lapsed <= w'.markers + w'.lapsed;
  }

  /** Removing the marker of a service whose release is authorized uncovers no active fence,
      because the authorized fence excludes every active one from that service. */
  lemma MarkerRemovedLegal(w: World, id: MigrationId, s: Service)
    requires Good(w)
    requires id in w.mem && Authorizes(w.mem[id], s)
    requires id in w.disk && Authorizes(w.disk[id], s)
    ensures var w' := w.(markers := w.markers - {s}); Good(w') && Legal(Broker, w, w')
  {
    StillGuarded(w.mem, id, s, w.markers, w.lapsed);
    StillGuarded(w.disk, id, s, w.markers, w.lapsed);
  }

  lemma StillGuarded(t: Table, id: MigrationId, s: Service, markers: set<Service>, lapsed: set<Service>)
    requires Sound(t, markers + lapsed) && id in t && Authorizes(t[id], s)
    ensures Guarded(t, markers - {s} + lapsed)
  {
    forall k | k in t && t[k].active ensures Within(t[k].services, markers - {s} + lapsed) {
      if s in t[k].services {
        SharedServiceClashes(s, t[k].services, t[id].services);
      }
    }
  }

  lemma StopLegal(w: World, s: Service)
    requires Good(w)
    ensures var w' := w.(running := w.running - {s}); Good(w') && Legal(Broker, w, w')
  {
  }

  lemma StartLegal(w: World, s: Service)
    requires Good(w) && Resumable(w.disk, s) && s !in w.markers
    ensures var w' := w.(running := w.running + {s}); Good(w') && Legal(Broker, w, w')
  {
  }

  lemma LapseLegal(w: World, id: MigrationId)
    requires Good(w) && id in w.mem && w.mem[id].phase.ReleaseAuthorized?
    ensures var w' := w.(lapsed := w.lapsed + (Names(w.mem[id].services) - w.markers));
            Good(w') && Legal(LapsedRollback(id), w, w')
  {
    var w' := w.(lapsed := w.lapsed + (Names(w.mem[id].services) - w.markers));
    assert w.markers + w.lapsed <= w'.markers + w'.lapsed;
  }

  lemma HostLegal(w: World, running: set<Service>)
    requires Good(w) && (running - w.running) !! w.markers
    ensures var w' := w.(running := running); Good(w') && Legal(Host, w, w')
  {
  }

  lemma CrashLegal(w: World)
    requires Good(w)
    ensures Good(w.(mem := w.disk)) && Legal(Crash, w, w.(mem := w.disk))
  {
  }

  lemma BootLegal(w: World, running: set<Service>)
    requires Good(w) && running !! w.markers
    ensures var w' := w.(mem := w.disk, running := running); Good(w') && Legal(Boot, w, w')
  {
  }

  // ---------------------------------------------------------------------------------------
  // What the unlocked watchdog does to a table

  lemma BumpSound(t: Table, pool: set<Service>)
    requires Sound(t, pool)
    ensures Sound(Bumped(t), pool)
  {
    var u := Bumped(t);
    forall a, b | a in u && b in u && a != b && Held(u[a]) && Held(u[b]) ensures !Clash(u[a].services, u[b].services) {
      assert Held(t[a]) && Held(t[b]);
    }
  }

  lemma BumpKeeps(d: Table, t: Table)
    requires StaysStranded(d, t) && ScopeKept(d, t)
    ensures StaysStranded(d, Bumped(t)) && ScopeKept(d, Bumped(t))
  {
  }

  lemma BumpLegal(w: World, replaced: bool)
    requires Good(w)
    ensures var t := Bumped(w.mem);
            var w' := w.(mem := t, disk := if replaced then t else w.disk);
            Good(w') && Legal(Unavailable, w, w')
  {
    BumpSound(w.mem, w.markers + w.lapsed);
    BumpKeeps(w.disk, w.mem);
  }

  predicate DriftedRecord(f: Fence, g: Fence) {
    && g == f.(violations := g.violations, watchdogErrors := g.watchdogErrors)
    && f.violations <= g.violations && f.watchdogErrors <= g.watchdogErrors
    && (f.active || g == f)
  }

  /** What any number of unlocked counts makes of a table. */
  predicate Drifted(t: Table, u: Table) {
    t.Keys == u.Keys && forall id :: id in t ==> DriftedRecord(t[id], u[id])
  }

  lemma BumpDrifts(t: Table)
    ensures Drifted(t, Bumped(t))
  {
  }

  lemma DriftedTransitive(t: Table, u: Table, v: Table)
    requires Drifted(t, u) && Drifted(u, v)
    ensures Drifted(t, v)
  {
    forall id | id in t ensures DriftedRecord(t[id], v[id]) {
      assert DriftedRecord(t[id], u[id]) && DriftedRecord(u[id], v[id]);
    }
  }

  lemma DriftedSaved(t: Table, u: Table, f: Fence)
    requires Drifted(t, u)
    ensures Drifted(Saved(t, f), Saved(u, f))
  {
  }

  /** The table after a stretch of an operation: drifted beside a request, else as it was. */
  predicate Shift(request: bool, t: Table, u: Table) {
    if request then Drifted(t, u) else u == t
  }

  /** Memory and file after a stretch in which others may save, and may count beside a request. */
  predicate Beside(request: bool, mem: Table, disk: Table, mem': Table, disk': Table) {
    && Shift(request, mem, mem')
    && (disk' == disk || (Shift(request, mem, disk') && Shift(request, disk', mem')))
  }

  lemma ShiftTransitive(request: bool, t: Table, u: Table, v: Table)
    requires Shift(request, t, u) && Shift(request, u, v)
    ensures Shift(request, t, v)
  {
    if request {
      DriftedTransitive(t, u, v);
    }
  }

  lemma ShiftSaved(request: bool, t: Table, u: Table, f: Fence)
    requires Shift(request, t, u)
    ensures Shift(request, Saved(t, f), Saved(u, f))
  {
    if request {
      DriftedSaved(t, u, f);
    }
  }

  lemma BesideTransitive(request: bool, m: Table, d: Table, m': Table, d': Table, m'': Table, d'': Table)
    requires Beside(request, m, d, m', d') && Beside(request, m', d', m'', d'')
    ensures Beside(request, m, d, m'', d'')
  {
    ShiftTransitive(request, m, m', m'');
    if d'' != d {
      if d'' == d' {
        ShiftTransitive(request, d', m', m'');
      } else {
        ShiftTransitive(request, m, m', d'');
      }
    }
  }

  lemma ShiftInactive(request: bool, t: Table, u: Table, id: MigrationId)
    requires Shift(request, t, u) && id in t && !t[id].active
    ensures id in u && u[id] == t[id]
  {
    if request {
      assert DriftedRecord(t[id], u[id]);
    }
  }

  /** A fence that is not active is left alone, in memory and in the file. */
  lemma BesideInactive(request: bool, m: Table, d: Table, m': Table, d': Table, id: MigrationId)
    requires Beside(request, m, d, m', d') && id in m && !m[id].active && id in d && d[id] == m[id]
    ensures id in m' && m'[id] == m[id] && id in d' && d'[id] == m[id]
  {
    assert DriftedRecord(m[id], m[id]);
    if request {
      assert DriftedRecord(m[id], m'[id]);
      if d' != d {
        assert DriftedRecord(m[id], d'[id]);
      }
    }
  }
}
