/** What the operations of the writer-fence broker check, how their steps may go, and why each of
    the records they write fits the invariant. */
module FenceRules {
  import opened Wrappers
  import opened FenceState
  import opened FenceSteps

  // ---------------------------------------------------------------------------------------
  // How things go

  /** How installing markers goes wrong: a unit drop-in or the directory is unsafe, the marker
      of one service fails (its file possibly created), or only the final sync fails. */
  datatype InstallFault = NoFault | Unsafe | MarkerFails(at: nat, created: bool) | SyncFails

  datatype StopResult = Stopped | FailedStopped | FailedRunning

  /** How the steps of one activation go.  `observe` and `verify` are the first unanswered query of
      the two passes over the services. */
  datatype Luck = Luck(
    observe: Option<nat>, install: InstallFault, save: SaveOutcome, stops: map<Service, StopResult>,
    verify: Option<nat>, confirm: SaveOutcome)

  const GOOD := Luck(None, NoFault, SaveOk, map[], None, SaveOk)

  predicate Answers(unanswered: Option<nat>, n: nat) {
    unanswered.None? || n <= unanswered.value
  }

  predicate Installs(services: seq<Service>, fault: InstallFault) {
    fault == NoFault || (fault.MarkerFails? && |services| <= fault.at)
  }

  function StopOf(stops: map<Service, StopResult>, s: Service): StopResult {
    if s in stops then stops[s] else Stopped
  }

  predicate AllStop(services: seq<Service>, stops: map<Service, StopResult>) {
    forall s :: s in services ==> StopOf(stops, s) == Stopped
  }

  function StoppedAmong(services: seq<Service>, stops: map<Service, StopResult>): set<Service> {
    set s | s in services && StopOf(stops, s) != FailedRunning
  }

  function Reached(services: seq<Service>, fault: InstallFault): (n: nat)
    ensures n <= |services|
  {
    match fault
    case NoFault => |services|
    case SyncFails => |services|
    case Unsafe => 0
    case MarkerFails(at, created) =>
      if at < |services| then (if created then at + 1 else at) else |services|
  }

  /** The installation leaves every service marked: each service past the fault has its marker
      already, or is named before the fault too. */
  predicate InstallCompletes(services: seq<Service>, fault: InstallFault, markers: set<Service>) {
    var n := Reached(services, fault);
    forall i :: n <= i < |services| ==> services[i] in markers || services[i] in services[..n]
  }

  // ---------------------------------------------------------------------------------------
  // Tables and services

  function ActiveAmong(services: seq<Service>, running: set<Service>): (r: seq<Service>)
    ensures forall s :: s in r <==> s in services && s in running
  {
    if services == [] then []
    else
      var n := |services| - 1;
      ActiveAmong(services[..n], running) + (if services[n] in running then [services[n]] else [])
  }

  /** State files written before phases existed. */
  function Upgraded(f: Fence): Fence {
    if f.phase != Unset then f
    else if f.active then
      f.(phase := Active, previouslyActive := if f.previouslyActive == [] then f.services else f.previouslyActive)
    else f.(phase := Released)
  }

  function LoadFences(file: Table): Table {
    map id | id in file :: Upgraded(file[id])
  }

  /** A record with a phase loads as it is, a legacy one as the older broker treated it: in force it
      stays in force and restarts every service unless it recorded some, else it is released. */
  lemma LoadedRecord(file: Table, id: MigrationId)
    requires id in file
    ensures id in LoadFences(file)
    ensures file[id].phase != Unset ==> LoadFences(file)[id] == file[id]
    ensures var f, g := file[id], LoadFences(file)[id];
            f.phase == Unset ==>
              && g.active == f.active && g.services == f.services && g.phase == (if f.active then Active else Released)
              && g.previouslyActive == (if f.active && f.previouslyActive == [] then f.services else f.previouslyActive)
              && g.runId == f.runId && g.violations == f.violations && g.watchdogErrors == f.watchdogErrors
  {
  }

  /** What the broker saved loads as it was saved. */
  lemma SavedLoadsUnchanged(t: Table)
    requires WellFormed(t)
    ensures LoadFences(t) == t
  {
    forall id | id in t ensures LoadFences(t)[id] == t[id] {
      assert RecordOk(id, t[id]);
    }
  }

  predicate Idle(services: seq<Service>, running: set<Service>) {
    forall s :: s in services ==> s !in running
  }

  /** Exactly the expected services run, among those given. */
  predicate ExactlyRunning(services: seq<Service>, expected: seq<Service>, running: set<Service>) {
    forall s :: s in services ==> (s in running <==> s in expected)
  }

  /** Of the fenced services at most the recorded writers run. */
  predicate OnlyRecorded(f: Fence, running: set<Service>) {
    forall s :: s in f.services && s in running ==> s in f.previouslyActive
  }

  predicate NoneAuthorized(t: Table) {
    forall id :: id in t ==> !t[id].phase.ReleaseAuthorized?
  }

  /** Other fences changed in their counters at most. */
  ghost predicate DriftedExcept(t: Table, u: Table, id: MigrationId) {
    forall k :: k != id ==> (k in t <==> k in u) && (k in t && k in u ==> DriftedRecord(t[k], u[k]))
  }

  /** The writers to restart: those recorded by a fence already in force, else those running. */
  function Recorded(t: Table, id: MigrationId, services: seq<Service>, running: set<Service>): seq<Service> {
    if id in t && t[id].active then t[id].previouslyActive else ActiveAmong(services, running)
  }

  function ExpectedMarkers(t: Table): set<Service> {
    set id, s | id in t && Held(t[id]) && s in t[id].services :: s
  }

  /** Every marker is named by a record that is active or whose release is authorized. */
  predicate NoOrphan(t: Table, markers: set<Service>) {
    forall s :: s in markers ==> exists id :: id in t && (t[id].active || t[id].phase == ReleaseAuthorized) && s in t[id].services
  }

  lemma ExpectedIffNoOrphan(t: Table, markers: set<Service>)
    ensures markers <= ExpectedMarkers(t) <==> NoOrphan(t, markers)
  {
  }

  /** Memory is what the file holds, and every marker is named. */
  predicate Accounted(mem: Table, disk: Table, markers: set<Service>) {
    mem == disk && NoOrphan(mem, markers)
  }

  lemma MarkedUnder(t: Table, id: MigrationId, markers: set<Service>, markers': set<Service>)
    requires NoOrphan(t, markers) && id in t && t[id].active && markers' <= markers + Names(t[id].services)
    ensures NoOrphan(t, markers')
  {
  }

  lemma ReleasedUnmarks(t: Table, id: MigrationId, markers: set<Service>)
    requires NoOrphan(t, markers) && id in t && t[id].id == id
    ensures NoOrphan(Saved(t, t[id].(phase := Released)), markers - Names(t[id].services))
  {
    var u := Saved(t, t[id].(phase := Released));
    forall s | s in markers - Names(t[id].services)
      ensures exists k :: k in u && (u[k].active || u[k].phase == ReleaseAuthorized) && s in u[k].services
    {
      var k :| k in t && (t[k].active || t[k].phase == ReleaseAuthorized) && s in t[k].services;
      assert u[k] == t[k];
    }
  }

  // ---------------------------------------------------------------------------------------
  // Activation

  predicate ClashesWithActive(t: Table, id: MigrationId, services: seq<Service>) {
    exists k :: k in t && k != id && t[k].active && Clash(t[k].services, services)
  }

  /** The checks on the table that activation makes. */
  predicate Admits(t: Table, id: MigrationId, runId: string, services: seq<Service>) {
    && runId != ""
    && !ClashesWithActive(t, id, services)
    && (IsActiveIn(t, id) ==> t[id].runId == runId && t[id].services == services)
  }

  /** Activation gets as far as trying to save its intent. */
  predicate Declares(t: Table, id: MigrationId, runId: string, services: seq<Service>, luck: Luck) {
    && Admits(t, id, runId, services)
    && (IsActiveIn(t, id) || Answers(luck.observe, |services|))
    && Installs(services, luck.install)
  }

  /** An intent is marked, saved and enforced. */
  predicate Pursues(services: seq<Service>, luck: Luck) {
    && Installs(services, luck.install) && luck.save == SaveOk
    && AllStop(services, luck.stops) && Answers(luck.verify, |services|)
  }

  /** Activation gets as far as trying to save the confirmed record. */
  predicate Confirms(t: Table, id: MigrationId, runId: string, services: seq<Service>, luck: Luck) {
    Declares(t, id, runId, services, luck) && Pursues(services, luck)
  }

  /** How activation ends, in terms of the table and the services it began with. */
  ghost predicate Activated(t: Table, ran: set<Service>, id: MigrationId, runId: string, services: seq<Service>, luck: Luck,
                            ok: bool, t': Table, ran': set<Service>) {
    // It succeeds exactly when its checks hold and every step goes well.
    && (ok <==> Confirms(t, id, runId, services, luck) && luck.confirm == SaveOk)
    // Services are stopped, as far as they can be, once the intent was to be saved.
    && ran' == (if Declares(t, id, runId, services, luck) then ran - StoppedAmong(services, luck.stops) else ran)
    // A saved intent stays in force with the writers that ran; a failed last save takes its run identity.
    && (if Declares(t, id, runId, services, luck) && luck.save == SaveOk
        then && IsActiveIn(t', id) && t'[id].services == services
             && t'[id].previouslyActive == Recorded(t, id, services, ran)
             && t'[id].runId == (if Confirms(t, id, runId, services, luck) && !ok then "" else runId)
        // Else the fence is as it was, but for what the watchdog counted meanwhile.
        else Drifted(t, t'))
  }

  /** The same for an intent that passed the checks. */
  predicate Pursued(t: Table, ran: set<Service>, intent: Fence, luck: Luck, ok: bool, t': Table, ran': set<Service>) {
    && (ok <==> Pursues(intent.services, luck) && luck.confirm == SaveOk)
    && ran' == (if Installs(intent.services, luck.install) then ran - StoppedAmong(intent.services, luck.stops) else ran)
    && if Installs(intent.services, luck.install) && luck.save == SaveOk
       then && intent.id in t'
            && if ok then t'[intent.id] == intent.(phase := Active)
               else DriftedRecord(if Pursues(intent.services, luck) then intent.(runId := "") else intent, t'[intent.id])
       else Drifted(t, t')
  }

  /** What enforcing a declared intent makes of it. */
  lemma EnforcedIsPursued(t: Table, ran: set<Service>, intent: Fence, luck: Luck, between: Table, ok: bool, t': Table, ran': set<Service>)
    requires Installs(intent.services, luck.install) && luck.save == SaveOk && intent.id in between && between[intent.id] == intent
    requires ran' == ran - StoppedAmong(intent.services, luck.stops)
    requires ok <==> AllStop(intent.services, luck.stops) && Answers(luck.verify, |intent.services|) && luck.confirm == SaveOk
    requires ok ==> intent.id in t' && t'[intent.id] == intent.(phase := Active)
    requires !ok ==>
      if AllStop(intent.services, luck.stops) && Answers(luck.verify, |intent.services|)
      then intent.id in t' && t'[intent.id] == intent.(runId := "") else Drifted(between, t')
    ensures Pursued(t, ran, intent, luck, ok, t', ran')
  {
    if Drifted(between, t') {
      assert DriftedRecord(between[intent.id], t'[intent.id]);
    }
  }

  lemma PursuedActivates(t: Table, ran: set<Service>, intent: Fence, luck: Luck, ok: bool, t': Table, ran': set<Service>)
    requires Pursued(t, ran, intent, luck, ok, t', ran') && intent.active
    requires Admits(t, intent.id, intent.runId, intent.services)
    requires IsActiveIn(t, intent.id) || Answers(luck.observe, |intent.services|)
    requires intent.previouslyActive == Recorded(t, intent.id, intent.services, ran)
    ensures Activated(t, ran, intent.id, intent.runId, intent.services, luck, ok, t', ran')
  {
  }

  /** The record that activation is about to save, given the checks made on the table. */
  predicate IsIntent(t: Table, intent: Fence) {
    && RecordOk(intent.id, intent)
    && intent.active && intent.phase == Activating && intent.runId != ""
    && intent.violations == Violations(t, intent.id)
    && intent.watchdogErrors == WatchdogErrors(t, intent.id)
    && !ClashesWithActive(t, intent.id, intent.services)
    && (IsActiveIn(t, intent.id) ==>
          var prior := t[intent.id];
          prior.runId == intent.runId && prior.services == intent.services && prior.previouslyActive == intent.previouslyActive)
  }

  function UndoIntent(t: Table, intent: Fence): Undo {
    if intent.id in t then Restore(t[intent.id]) else Delete
  }

  /** The record in memory is itself admissible, and so is an older copy of it. */
  lemma CopyStands(w: World, copy: Fence)
    requires Good(w) && copy.id in w.mem && DriftedRecord(copy, w.mem[copy.id])
    ensures Admissible(w, copy)
    ensures copy.id in w.disk ==> SameScope(w.disk[copy.id], copy)
  {
    assert RecordOk(copy.id, w.mem[copy.id]);
  }

  lemma DriftedKeepsClash(t: Table, u: Table, id: MigrationId, services: seq<Service>)
    requires Drifted(t, u) && NoneAuthorized(t) && !ClashesWithActive(t, id, services)
    ensures NoneAuthorized(u) && !ClashesWithHeld(u, id, services)
  {
    forall k | k in u ensures !u[k].phase.ReleaseAuthorized? && (k != id && Held(u[k]) ==> !Clash(u[k].services, services)) {
      assert DriftedRecord(t[k], u[k]);
    }
  }

  /** Activation consults active fences only; with no authorized fence in memory that is enough. */
  lemma IntentFits(w: World, t: Table, intent: Fence)
    requires Good(w) && Drifted(t, w.mem) && NoneAuthorized(t) && WellFormed(t)
    requires IsIntent(t, intent) && Within(intent.services, w.markers)
    ensures Admissible(w, intent) && UndoFits(w, intent, UndoIntent(t, intent))
  {
    DriftedKeepsClash(t, w.mem, intent.id, intent.services);
    if intent.id in t {
      assert DriftedRecord(t[intent.id], w.mem[intent.id]);
      assert RecordOk(intent.id, t[intent.id]);
      CopyStands(w, t[intent.id]);
    }
  }

  lemma ConfirmFits(w: World, intent: Fence)
    requires Good(w) && intent.active && intent.phase == Activating && intent.runId != ""
    requires intent.id in w.mem && DriftedRecord(intent, w.mem[intent.id])
    ensures var f := intent.(phase := Active);
            Admissible(w, f) && UndoFits(w, f, Restore(intent.(runId := "")))
  {
    CopyStands(w, intent);
  }

  lemma DriftedServing(t: Table, u: Table)
    requires Drifted(t, u) && NoneAuthorized(t)
    ensures NoneAuthorized(u)
  {
    forall k | k in u ensures !u[k].phase.ReleaseAuthorized? {
      assert DriftedRecord(t[k], u[k]);
    }
  }

  lemma RecordsKept(t: Table, id: MigrationId)
    requires WellFormed(t) && id in t
    ensures RecordOk(id, t[id])
  {
  }

  /** The table after the intent was saved, and after its save was undone. */
  lemma IntentOutcome(copied: Table, m: Table, intent: Fence)
    requires Drifted(copied, m) && NoneAuthorized(copied) && intent.phase == Activating
    ensures Drifted(Saved(copied, intent), Saved(m, intent)) && NoneAuthorized(Saved(m, intent))
    ensures Drifted(copied, Undone(m, intent, UndoIntent(copied, intent)))
    ensures NoneAuthorized(Undone(m, intent, UndoIntent(copied, intent)))
  {
    DriftedServing(copied, m);
    DriftedSaved(copied, m, intent);
    var u := Undone(m, intent, UndoIntent(copied, intent));
    forall k | k in copied ensures k in u && DriftedRecord(copied[k], u[k]) {
      assert DriftedRecord(copied[k], m[k]);
    }
    DriftedServing(copied, u);
  }

  /** The table after the last save of an activation, and after it was undone. */
  lemma ConfirmOutcome(copied: Table, m: Table, intent: Fence)
    requires Drifted(copied, m) && NoneAuthorized(copied) && intent.phase == Activating
    ensures Drifted(Saved(copied, intent.(phase := Active)), Saved(m, intent.(phase := Active)))
    ensures Drifted(Saved(copied, intent.(runId := "")), Saved(m, intent.(runId := "")))
    ensures NoneAuthorized(Saved(m, intent.(phase := Active))) && NoneAuthorized(Saved(m, intent.(runId := "")))
  {
    DriftedServing(copied, m);
    DriftedSaved(copied, m, intent.(phase := Active));
    DriftedSaved(copied, m, intent.(runId := ""));
  }

  lemma ActivationFrame(t: Table, u: Table, v: Table, intent: Fence)
    requires Drifted(Saved(t, intent), u)
    requires Drifted(u, v) || (exists f: Fence :: f.id == intent.id && Drifted(Saved(u, f), v))
    ensures DriftedExcept(t, v, intent.id)
  {
    forall k | k != intent.id ensures (k in t <==> k in v) && (k in t && k in v ==> DriftedRecord(t[k], v[k])) {
      if k in t {
        assert DriftedRecord(Saved(t, intent)[k], u[k]);
        assert DriftedRecord(u[k], v[k]);
      }
    }
  }

  // ---------------------------------------------------------------------------------------
  // Release

  /** The checks that a release makes while requests are served. */
  predicate Releasable(t: Table, id: MigrationId, runId: string, services: seq<Service>, running: set<Service>) {
    && runId != ""
    && if id !in t then ExactlyRunning(services, services, running)
       else
         && t[id].runId == runId && t[id].services == services && t[id].phase != Releasing
         && if t[id].active then Idle(services, running)
            else t[id].phase == Released && ExactlyRunning(services, t[id].previouslyActive, running)
  }

  lemma AuthorizeFits(w: World, fence: Fence, token: int)
    requires Good(w) && fence.id in w.mem && DriftedRecord(fence, w.mem[fence.id])
    requires fence.active && fence.runId != ""
    ensures var f := fence.(active := false, phase := ReleaseAuthorized, token := token);
            Admissible(w, f) && UndoFits(w, f, Restore(fence))
  {
    CopyStands(w, fence);
  }

  function Reinstated(f: Fence): Fence {
    f.(active := true, phase := Active)
  }

  /** A release that failed half-way: the fence it was releasing may be put back in force. */
  lemma ReinstatedFits(w: World, f: Fence)
    requires Good(w) && f.id in w.mem && w.mem[f.id] == f && f.phase.ReleaseAuthorized?
    requires Within(f.services, w.markers + w.lapsed)
    ensures Admissible(w, Reinstated(f)) && UndoFits(w, Reinstated(f), Keep)
  {
    CopyStands(w, f);
  }

  lemma ReleasedFits(w: World, f: Fence)
    requires Good(w) && f.id in w.mem && w.mem[f.id] == f && !f.active && f.phase.ReleaseAuthorized?
    ensures Admissible(w, f.(phase := Released)) && UndoFits(w, f.(phase := Released), Restore(f))
  {
    CopyStands(w, f);
  }

  /** Other fences across a release: drift before and after its commit. */
  lemma ReleaseFrame(m0: Table, m1: Table, m2: Table, m3: Table, f: Fence)
    requires Drifted(m0, m1) && NoneAuthorized(m1) && m2 == Saved(m1, f)
    requires m3 == m2 || (exists g: Fence :: g.id == f.id && !g.phase.ReleaseAuthorized? && Drifted(Saved(m2, g), m3))
    requires m3 == m2 ==> !f.phase.ReleaseAuthorized?
    ensures DriftedExcept(m0, m3, f.id) && NoneAuthorized(m3)
  {
    forall k | k != f.id ensures (k in m0 <==> k in m3) && (k in m0 && k in m3 ==> DriftedRecord(m0[k], m3[k])) {
      if k in m0 {
        assert DriftedRecord(m0[k], m1[k]);
        assert DriftedRecord(m2[k], m3[k]);
      }
    }
    if m3 != m2 {
      var g: Fence :| g.id == f.id && !g.phase.ReleaseAuthorized? && Drifted(Saved(m2, g), m3);
      DriftedServing(Saved(m2, g), m3);
    }
  }

  lemma ReleasedFrame(m0: Table, m1: Table, f: Fence, undo: Undo)
    requires Drifted(m0, m1) && NoneAuthorized(m1) && f.phase == Released
    requires if f.id in m0 then undo == Restore(m0[f.id]) && m1[f.id] == m0[f.id] else undo == Delete
    ensures DriftedExcept(m0, Saved(m1, f), f.id) && NoneAuthorized(Saved(m1, f))
    ensures Drifted(m0, Undone(m1, f, undo)) && DriftedExcept(m0, Undone(m1, f, undo), f.id) && NoneAuthorized(Undone(m1, f, undo))
  {
    assert Undone(m1, f, undo) == m1;
  }

  /** Authorized releases in memory are durable. */
  predicate AuthorizedDurably(mem: Table, disk: Table) {
    forall id :: id in mem && mem[id].phase.ReleaseAuthorized? ==> id in disk && disk[id] == mem[id]
  }

  /** The condition on the fault is exact. */
  lemma InstallCompletesIff(services: seq<Service>, fault: InstallFault, markers: set<Service>)
    ensures InstallCompletes(services, fault, markers)
       <==> Within(services, markers + Names(services[..Reached(services, fault)]))
  {
    var n := Reached(services, fault);
    var pool := markers + Names(services[..n]);
    if InstallCompletes(services, fault, markers) {
      forall s | s in services ensures s in pool {
        var i :| 0 <= i < |services| && services[i] == s;
        if i < n {
          assert services[..n][i] == s;
        }
      }
    } else {
      var i :| n <= i < |services| && services[i] !in markers && services[i] !in services[..n];
      assert services[i] !in pool;
    }
  }

  lemma NamesOneMore(services: seq<Service>, i: nat)
    requires i < |services|
    ensures Names(services[..i + 1]) == Names(services[..i]) + {services[i]}
  {
    assert services[..i + 1] == services[..i] + [services[i]];
  }

  lemma StopsOneMore(services: seq<Service>, i: nat, stops: map<Service, StopResult>)
    requires i < |services|
    ensures AllStop(services[..i + 1], stops) <==> AllStop(services[..i], stops) && StopOf(stops, services[i]) == Stopped
    ensures StoppedAmong(services[..i + 1], stops) ==
      if StopOf(stops, services[i]) == FailedRunning then StoppedAmong(services[..i], stops)
      else StoppedAmong(services[..i], stops) + {services[i]}
  {
    assert services[..i + 1] == services[..i] + [services[i]];
    assert services[i] in services[..i + 1];
  }

  // ---------------------------------------------------------------------------------------
  // The watchdog

  /** Changes that the watchdog may make to a record. */
  predicate WatchedFrom(f: Fence, g: Fence) {
    && g == f.(phase := g.phase, violations := g.violations, watchdogErrors := g.watchdogErrors)
    && f.violations <= g.violations <= f.violations + 1
    && f.watchdogErrors <= g.watchdogErrors <= f.watchdogErrors + 1
    && (g.phase == f.phase || (g.phase == Active && f.phase in {Activating, Releasing}))
  }

  /** The record after a pass over its services. */
  function Reviewed(f: Fence, violated: bool, failed: bool, idle: bool): (g: Fence)
    ensures WatchedFrom(f, g) && g.active == f.active
  {
    f.(phase := if idle && (f.phase == Activating || f.phase == Releasing) then Active else f.phase,
       violations := f.violations + (if violated then 1 else 0),
       watchdogErrors := f.watchdogErrors + (if failed then 1 else 0))
  }

  lemma WatchedFits(w: World, g: Fence)
    requires Good(w) && g.id in w.mem && w.mem[g.id].active && WatchedFrom(w.mem[g.id], g)
    ensures Admissible(w, g) && StandsFor(w, g, g)
  {
    assert RecordOk(g.id, w.mem[g.id]);
    CopyStands(w, w.mem[g.id]);
  }

  /** The scope that verification asks of a fence. */
  predicate Verifiable(t: Table, id: MigrationId, runId: string, services: seq<Service>) {
    IsActiveIn(t, id) && t[id].runId == runId && t[id].phase != Releasing && t[id].services == services
  }

  lemma VerifiableDrifts(t: Table, u: Table, id: MigrationId, runId: string, services: seq<Service>)
    requires Drifted(t, u) && NoneAuthorized(t)
    ensures NoneAuthorized(u) && (Verifiable(t, id, runId, services) <==> Verifiable(u, id, runId, services))
    ensures NotAbove(t, u, id) && DriftedExcept(t, u, id)
  {
    DriftedServing(t, u);
    if id in t {
      assert DriftedRecord(t[id], u[id]);
    }
  }

  lemma AffirmFrame(t: Table, u: Table, v: Table, id: MigrationId)
    requires Drifted(t, u) && id in u && id in v && v[id].id == id && v == Saved(u, v[id]) && SameCount(u, v, id)
    ensures DriftedExcept(t, v, id) && NotAbove(t, v, id)
  {
    assert DriftedRecord(t[id], u[id]);
  }

  predicate InForce(f: Fence, markers: set<Service>, running: set<Service>) {
    Within(f.services, markers) && Idle(f.services, running)
  }

  /** Every active fence has all its markers and none of its services runs. */
  predicate AllInForce(t: Table, markers: set<Service>, running: set<Service>) {
    forall id :: id in t && t[id].active ==> InForce(t[id], markers, running)
  }

  /** The fences in force. */
  function ActiveOf(t: Table): Table {
    map id | id in t && t[id].active :: t[id]
  }

  /** What was counted in a pass shows in the fences in force afterwards, which are those before. */
  lemma AttestedCounts(t: Table, u: Table, v: Table)
    requires Watched(true, t, u) && Drifted(u, v)
    ensures ActiveOf(v).Keys == set id | id in t && t[id].active
    ensures forall id :: id in t && t[id].active ==> id in ActiveOf(v) && u[id].violations <= ActiveOf(v)[id].violations
  {
    WatchedDrifts(t, u, v);
  }

  /** Changes that a pass makes to a record, with others counting beside it or not. */
  predicate PassedRecord(counted: bool, f: Fence, g: Fence) {
    && g == f.(phase := g.phase, violations := g.violations, watchdogErrors := g.watchdogErrors)
    && f.violations <= g.violations && f.watchdogErrors <= g.watchdogErrors
    && (counted || (g.violations <= f.violations + 1 && g.watchdogErrors <= f.watchdogErrors + 1))
    && (g.phase == f.phase || (g.phase == Active && f.phase in {Activating, Releasing}))
    && (f.active || g == f)
  }

  /** A pass left every record as it was but for phases and counters. */
  predicate Watched(counted: bool, t: Table, u: Table) {
    u.Keys == t.Keys && forall id :: id in t ==> PassedRecord(counted, t[id], u[id])
  }

  lemma WatchedMore(t: Table, u: Table)
    requires exists counted :: Watched(counted, t, u)
    ensures Watched(true, t, u)
  {
    var counted :| Watched(counted, t, u);
    forall id | id in t ensures PassedRecord(true, t[id], u[id]) {
      assert PassedRecord(counted, t[id], u[id]);
    }
  }

  lemma WatchedNames(counted: bool, t: Table, u: Table, markers: set<Service>)
    requires Watched(counted, t, u) && NoOrphan(t, markers)
    ensures NoOrphan(u, markers)
  {
    forall s | s in markers ensures exists k :: k in u && (u[k].active || u[k].phase == ReleaseAuthorized) && s in u[k].services {
      var k :| k in t && (t[k].active || t[k].phase == ReleaseAuthorized) && s in t[k].services;
      assert PassedRecord(counted, t[k], u[k]);
    }
  }

  lemma WatchedDrifts(t: Table, u: Table, v: Table)
    requires Watched(true, t, u) && Drifted(u, v)
    ensures Watched(true, t, v)
    ensures forall id :: id in t ==> t[id].active == v[id].active && u[id].violations <= v[id].violations
    ensures NoneAuthorized(t) ==> NoneAuthorized(v)
  {
    forall id | id in t
      ensures PassedRecord(true, t[id], v[id]) && u[id].violations <= v[id].violations
    {
      assert PassedRecord(true, t[id], u[id]) && DriftedRecord(u[id], v[id]);
    }
  }

  /** A fence in force at the start of the pass saw one of its writers running. */
  predicate SawWriter(t: Table, id: MigrationId, running: set<Service>) {
    id in t && t[id].active && t[id].phase == Active && !Idle(t[id].services, running)
  }

  predicate Agree(services: seq<Service>, ran: set<Service>, ran0: set<Service>) {
    forall s :: s in services ==> (s in ran <==> s in ran0)
  }

  /** Starting and stopping services of one fence does not touch those of another. */
  lemma OtherFenceUntouched(t: Table, a: MigrationId, b: MigrationId, before: set<Service>, after: set<Service>)
    requires Exclusive(t) && a in t && b in t && a != b && Held(t[a]) && Held(t[b])
    requires after <= before + Names(t[a].services) && before <= after + Names(t[a].services)
    ensures Agree(t[b].services, before, after)
  {
    forall s | s in t[b].services ensures s in before <==> s in after {
      if s in t[a].services {
        SharedServiceClashes(s, t[a].services, t[b].services);
      }
    }
  }

  predicate ShiftRecord(counted: bool, f: Fence, g: Fence) {
    if counted then DriftedRecord(f, g) else g == f
  }

  /** The table in a pass that began with `t0`, with the fences of `rest` to go. */
  predicate Watching(counted: bool, t0: Table, t: Table, rest: set<MigrationId>) {
    && rest <= t.Keys && Watched(counted, t0, t)
    && forall id :: id in rest ==> id in t0 && ShiftRecord(counted, t0[id], t[id]) && t[id].active
  }

  /** What a pass has seen and counted of the services that ran when it began. */
  ghost predicate Progress(counted: bool, t0: Table, ran0: set<Service>, t: Table, ran: set<Service>, rest: set<MigrationId>) {
    && Watching(counted, t0, t, rest) && ran <= ran0
    && (forall id :: id in t && Held(t[id]) && (id in rest || !t[id].active) ==> Agree(t[id].services, ran, ran0))
    && (forall id :: SawWriter(t0, id, ran0) && id !in rest ==>
          t[id].violations > t0[id].violations && (counted || t[id].violations == t0[id].violations + 1))
  }

  predicate Clean(counted: bool, t0: Table, t: Table, marked: set<Service>, ran: set<Service>, rest: set<MigrationId>) {
    && (forall id :: id in t && t[id].active && id !in rest ==> InForce(t[id], marked, ran))
    && (counted || forall id :: id in t && id in t0 ==> t[id].watchdogErrors == t0[id].watchdogErrors)
  }

  lemma PassEnds(counted: bool, t0: Table, ran0: set<Service>, t: Table, marked: set<Service>, ran: set<Service>)
    requires Progress(counted, t0, ran0, t, ran, {}) && Clean(counted, t0, t, marked, ran, {})
    ensures AllInForce(t, marked, ran)
    ensures forall id :: SawWriter(t0, id, ran0) ==> id in t && t[id].violations > t0[id].violations
    ensures !counted ==> forall id :: SawWriter(t0, id, ran0) ==> t[id].violations == t0[id].violations + 1
    ensures !counted ==> forall id :: id in t && id in t0 ==> t[id].watchdogErrors == t0[id].watchdogErrors
    ensures forall id :: id in t && t[id].phase.ReleaseAuthorized? && !t[id].active ==> Agree(t[id].services, ran, ran0)
  {
  }

  lemma PassBegins(t: Table, ran: set<Service>, marked: set<Service>, rest: set<MigrationId>)
    requires forall id :: id in rest <==> id in t && t[id].active
    ensures Watching(false, t, t, rest) && Progress(false, t, ran, t, ran, rest) && Clean(false, t, t, marked, ran, rest)
  {
  }

  lemma ShiftNow(request: bool, now: bool, t: Table, u: Table)
    requires Shift(request, t, u) && (now || u == t)
    ensures Shift(now, t, u)
  {
    if now && !request {
      assert forall id :: id in t ==> DriftedRecord(t[id], t[id]);
    }
  }

  lemma ShiftedActive(request: bool, t: Table, u: Table, id: MigrationId)
    requires Shift(request, t, u) && id in t
    ensures id in u && DriftedRecord(t[id], u[id])
  {
    if request {
      assert DriftedRecord(t[id], u[id]);
    }
  }

  /** The table of a pass moves on: others count, then one record is rewritten. */
  lemma WatchingAdvances(counted: bool, now: bool, t0: Table, t: Table, rest: set<MigrationId>, id: MigrationId, u: Table, t': Table)
    requires Watching(counted, t0, t, rest) && (counted ==> now) && Shift(now, t, u) && id in rest
    requires id in u && id in t' && t'[id].id == id && t' == Saved(u, t'[id]) && WatchedFrom(u[id], t'[id])
    ensures Watching(now, t0, t', rest - {id})
  {
    forall k | k in t0 ensures PassedRecord(now, t0[k], t'[k]) {
      assert PassedRecord(counted, t0[k], t[k]);
      ShiftedActive(now, t, u, k);
    }
    forall k | k in rest - {id} ensures k in t0 && ShiftRecord(now, t0[k], t'[k]) && t'[k].active {
      ShiftedActive(now, t, u, k);
    }
  }

  lemma PassAdvances(counted: bool, now: bool, t0: Table, ran0: set<Service>, t: Table, ran: set<Service>, rest: set<MigrationId>,
                     id: MigrationId, u: Table, t': Table, ran': set<Service>)
    requires Progress(counted, t0, ran0, t, ran, rest) && (counted ==> now) && Shift(now, t, u) && id in rest && Exclusive(t)
    requires id in u && id in t' && t'[id].id == id && t' == Saved(u, t'[id]) && WatchedFrom(u[id], t'[id])
    requires ran' <= ran <= ran' + Names(t[id].services)
    requires t[id].phase == Active && !Idle(t[id].services, ran) ==> t'[id].violations == u[id].violations + 1
    ensures Progress(now, t0, ran0, t', ran', rest - {id})
  {
    WatchingAdvances(counted, now, t0, t, rest, id, u, t');
    forall k | k in t' && Held(t'[k]) && (k in rest - {id} || !t'[k].active) ensures Agree(t'[k].services, ran', ran0) {
      ShiftedActive(now, t, u, k);
      OtherFenceUntouched(t, id, k, ran, ran');
    }
    forall k | SawWriter(t0, k, ran0) && k !in rest - {id}
      ensures t'[k].violations > t0[k].violations && (now || t'[k].violations == t0[k].violations + 1)
    {
      ShiftedActive(now, t, u, k);
    }
  }

  lemma PassStaysClean(counted: bool, now: bool, t0: Table, t: Table, marked: set<Service>, ran: set<Service>, rest: set<MigrationId>,
                       id: MigrationId, u: Table, t': Table, marked': set<Service>, ran': set<Service>)
    requires Watching(counted, t0, t, rest) && Clean(counted, t0, t, marked, ran, rest) && id in rest
    requires (counted ==> now) && Shift(now, t, u)
    requires id in u && id in t' && t'[id].id == id && t' == Saved(u, t'[id]) && WatchedFrom(u[id], t'[id])
    requires InForce(t'[id], marked', ran') && t'[id].watchdogErrors == u[id].watchdogErrors
    requires marked <= marked' && ran' <= ran
    ensures Clean(now, t0, t', marked', ran', rest - {id})
  {
    forall k | k in t' && t'[k].active && k !in rest - {id} ensures InForce(t'[k], marked', ran') {
      if k != id {
        ShiftedActive(now, t, u, k);
      }
    }
  }

  /** A pass leaves authorized releases in memory as durable as they were. */
  lemma DurablyKept(request: bool, m: Table, d: Table, m1: Table, d1: Table, m2: Table, d2: Table, id: MigrationId)
    requires Beside(request, m, d, m1, d1) && id in m1 && m1[id].active
    requires id in m2 && m2[id].id == id && m2 == Saved(m1, m2[id]) && m2[id].active == m1[id].active
    requires !m2[id].phase.ReleaseAuthorized? && WellFormed(m) && (d2 == d1 || d2 == m2)
    ensures AuthorizedDurably(m, d) ==> AuthorizedDurably(m2, d2)
  {
    if AuthorizedDurably(m, d) {
      forall k | k in m2 && m2[k].phase.ReleaseAuthorized? ensures k in d2 && d2[k] == m2[k] {
        assert k != id && k in m;
        ShiftedActive(request, m, m1, k);
        RecordsKept(m, k);
        BesideInactive(request, m, d, m1, d1, k);
      }
    }
  }

  // ---------------------------------------------------------------------------------------
  // Resuming releases

  ghost predicate SameActive(t: Table, u: Table) {
    && (forall id :: id in t && t[id].active ==> id in u && u[id] == t[id])
    && (forall id :: id in u && u[id].active ==> id in t && t[id].active)
  }

  /** Every authorized release can be completed: no service of it runs that was not recorded. */
  predicate AllCompletable(t: Table, running: set<Service>) {
    forall id :: id in t && t[id].phase.ReleaseAuthorized? ==> OnlyRecorded(t[id], running)
  }

  /** A watchdog pass does not decide whether releases can be completed. */
  lemma CompletableKept(t: Table, ran: set<Service>, t': Table, ran': set<Service>)
    requires Watched(false, t, t')
    requires forall id :: id in t' && t'[id].phase.ReleaseAuthorized? ==> Agree(t'[id].services, ran', ran)
    ensures AllCompletable(t, ran) <==> AllCompletable(t', ran')
  {
    forall id | id in t && t[id].phase.ReleaseAuthorized? ensures OnlyRecorded(t[id], ran) <==> OnlyRecorded(t'[id], ran') {
      assert PassedRecord(false, t[id], t'[id]);
    }
    forall id | id in t' && t'[id].phase.ReleaseAuthorized? ensures t[id].phase.ReleaseAuthorized? {
      assert PassedRecord(false, t[id], t'[id]);
    }
  }

  predicate DoneCompletable(t: Table, running: set<Service>, rest: set<MigrationId>) {
    forall id :: id in t && t[id].phase.ReleaseAuthorized? && id !in rest ==> OnlyRecorded(t[id], running)
  }

  /** Where the resumption of releases stands, with the fences of `rest` to go. */
  ghost predicate Resuming(t0: Table, t: Table, rest: set<MigrationId>) {
    && SameActive(t0, t)
    && (forall id :: id in rest <==> id in t && t[id].phase.ReleaseAuthorized?)
    && (forall id :: id in rest ==> id in t0 && t[id] == t0[id])
  }

  lemma ResumptionBegins(t: Table, ran: set<Service>, rest: set<MigrationId>)
    requires forall id :: id in rest <==> id in t && t[id].phase.ReleaseAuthorized?
    ensures Resuming(t, t, rest) && AgreeOn(t, rest, ran, ran) && DoneCompletable(t, ran, rest)
    ensures NoneAuthorized(t) ==> rest == {}
  {
  }

  lemma ResumptionEnds(t0: Table, t: Table, ran0: set<Service>)
    requires Resuming(t0, t, {})
    ensures NoneAuthorized(t) && SameActive(t0, t)
    ensures DoneCompletable(t0, ran0, {}) ==> AllCompletable(t0, ran0)
  {
  }

  predicate AgreeOn(t: Table, rest: set<MigrationId>, ran: set<Service>, ran0: set<Service>) {
    forall id :: id in rest && id in t ==> Agree(t[id].services, ran, ran0)
  }

  lemma ResumptionAdvances(t0: Table, t: Table, id: MigrationId, rest: set<MigrationId>)
    requires Resuming(t0, t, rest) && id in rest && t[id].id == id && !t[id].active
    ensures Resuming(t0, Saved(t, t[id].(phase := Released)), rest - {id})
  {
  }

  lemma AgreementAdvances(t: Table, ran0: set<Service>, ran: set<Service>, id: MigrationId, ran': set<Service>, rest: set<MigrationId>)
    requires AgreeOn(t, rest, ran, ran0) && id in t && t[id].id == id && Exclusive(t)
    requires forall k :: k in rest ==> k in t && Held(t[k])
    requires id in rest && ran' <= ran + Names(t[id].services) && ran <= ran' + Names(t[id].services)
    ensures AgreeOn(Saved(t, t[id].(phase := Released)), rest - {id}, ran', ran0)
  {
    forall k | k in rest - {id} ensures Agree(t[k].services, ran', ran0) {
      OtherFenceUntouched(t, id, k, ran, ran');
    }
  }

  /** Completing one authorized release leaves every fence in force as it was, since the two
      exclude each other. */
  lemma ReleaseLeavesForce(t: Table, id: MigrationId, k: MigrationId, marked: set<Service>, ran: set<Service>,
                           marked': set<Service>, ran': set<Service>)
    requires WellFormed(t) && Exclusive(t)
    requires id in t && t[id].phase.ReleaseAuthorized? && k in t && t[k].active
    requires InForce(t[k], marked, ran)
    requires marked <= marked' + Names(t[id].services) && ran' <= ran + Names(t[id].previouslyActive)
    ensures InForce(t[k], marked', ran')
  {
    forall s | s in t[k].services ensures s in marked' && s !in ran' {
      if s in t[id].services {
        SharedServiceClashes(s, t[id].services, t[k].services);
      }
    }
  }

  // ---------------------------------------------------------------------------------------
  // Logs

  /** Calm, marking only these services, and without the host unless it may act. */
  predicate Calmly(actor: Actor, hosted: bool, marks: set<Service>) {
    Calm(actor) && (actor.Mark? ==> actor.service in marks) && (actor.Host? ==> hosted)
  }

  /** Only such steps were added. */
  predicate Quietly(before: seq<Entry>, log: seq<Entry>, hosted: bool, marks: set<Service>) {
    before <= log && forall k :: |before| <= k < |log| ==> Calmly(log[k].actor, hosted, marks)
  }

  lemma QuietlyOn(before: seq<Entry>, log: seq<Entry>, longer: seq<Entry>, hosted: bool, marks: set<Service>)
    requires Quietly(before, log, hosted, marks) && Quietly(log, longer, hosted, marks)
    ensures Quietly(before, longer, hosted, marks)
  {
    forall k | |before| <= k < |longer| ensures Calmly(longer[k].actor, hosted, marks) {
      if k < |log| {
        assert longer[k] == log[k];
      }
    }
  }

  /** The steps that complete (`done`) or roll back the authorized release of `f`.  A save of the
      release that succeeds is the last of them; after one that fails the fence is put back. */
  predicate Completing(e: Entry, hosted: bool, f: Fence, done: bool, last: bool) {
    || Calmly(e.actor, hosted, Names(f.services))
    || (e.actor.Commit? && e.actor.record == f.(phase := Released) && e.actor.undo == Restore(f)
        && if done then last else f.id in e.world.mem && e.world.mem[f.id] == f)
    || (!done && e.actor.Commit? && e.actor.record == Reinstated(f) && e.actor.undo == Keep)
  }

  predicate ByCompletion(before: seq<Entry>, log: seq<Entry>, hosted: bool, f: Fence, done: bool) {
    before <= log && forall k :: |before| <= k < |log| ==> Completing(log[k], hosted, f, done, k == |log| - 1)
  }

  lemma QuietThenCompletion(before: seq<Entry>, log: seq<Entry>, longer: seq<Entry>, hosted: bool, marks: set<Service>, f: Fence, done: bool)
    requires Quietly(before, log, hosted, marks) && marks <= Names(f.services) && ByCompletion(log, longer, hosted, f, done)
    ensures ByCompletion(before, longer, hosted, f, done)
  {
    forall k | |before| <= k < |longer| ensures Completing(longer[k], hosted, f, done, k == |longer| - 1) {
      if k < |log| {
        assert longer[k] == log[k] && Calmly(log[k].actor, hosted, marks);
      }
    }
  }

  lemma CompletionOn(before: seq<Entry>, log: seq<Entry>, longer: seq<Entry>, hosted: bool, f: Fence)
    requires ByCompletion(before, log, hosted, f, false) && ByCompletion(log, longer, hosted, f, false)
    ensures ByCompletion(before, longer, hosted, f, false)
  {
    forall k | |before| <= k < |longer| ensures Completing(longer[k], hosted, f, false, k == |longer| - 1) {
      if k < |log| {
        assert longer[k] == log[k];
      }
    }
  }

  function AuthorizedFence(fence: Fence, token: int): Fence {
    fence.(active := false, phase := ReleaseAuthorized, token := token)
  }

  /** The steps up to the authorization of a release. */
  predicate Authorizing(actor: Actor, hosted: bool, fence: Fence, token: int) {
    || Calmly(actor, hosted, {})
    || (actor.Commit? && actor.record == AuthorizedFence(fence, token) && actor.undo == Restore(fence))
  }

  predicate ByAuthorization(before: seq<Entry>, log: seq<Entry>, hosted: bool, fence: Fence, token: int) {
    before <= log && forall k :: |before| <= k < |log| ==> Authorizing(log[k].actor, hosted, fence, token)
  }

  lemma AuthorizationSaved(before: seq<Entry>, log: seq<Entry>, longer: seq<Entry>, hosted: bool, fence: Fence, token: int)
    requires Quietly(before, log, hosted, {}) && log <= longer && |longer| == |log| + 1
    requires Authorizing(longer[|log|].actor, hosted, fence, token)
    ensures ByAuthorization(before, longer, hosted, fence, token)
  {
    forall k | |before| <= k < |longer| ensures Authorizing(longer[k].actor, hosted, fence, token) {
      if k < |log| {
        assert longer[k] == log[k] && Calmly(log[k].actor, hosted, {});
      }
    }
  }

  /** The steps of a release of a fence in force. */
  predicate Releases(e: Entry, hosted: bool, fence: Fence, token: int, done: bool, last: bool) {
    Authorizing(e.actor, hosted, fence, token) || Completing(e, hosted, AuthorizedFence(fence, token), done, last)
  }

  predicate ByRelease(before: seq<Entry>, log: seq<Entry>, hosted: bool, fence: Fence, token: int, done: bool) {
    before <= log && forall k :: |before| <= k < |log| ==> Releases(log[k], hosted, fence, token, done, k == |log| - 1)
  }

  lemma AuthorizationThenRelease(before: seq<Entry>, log: seq<Entry>, longer: seq<Entry>, hosted: bool, fence: Fence, token: int, done: bool)
    requires ByAuthorization(before, log, hosted, fence, token)
    requires ByCompletion(log, longer, hosted, AuthorizedFence(fence, token), done)
    ensures ByRelease(before, longer, hosted, fence, token, done)
  {
    forall k | |before| <= k < |longer| ensures Releases(longer[k], hosted, fence, token, done, k == |longer| - 1) {
      if k < |log| {
        assert longer[k] == log[k] && Authorizing(log[k].actor, hosted, fence, token);
      } else {
        assert Completing(longer[k], hosted, AuthorizedFence(fence, token), done, k == |longer| - 1);
      }
    }
  }

  /** The steps of a release of a fence that is not in force: a record is saved that holds nothing. */
  predicate Recording(e: Entry, hosted: bool, id: MigrationId) {
    || Calmly(e.actor, hosted, {})
    || (e.actor.Commit? && e.actor.record.id == id && !Held(e.actor.record)
        && (e.actor.undo.Delete? || (e.actor.undo.Restore? && e.actor.undo.prior.id == id && !Held(e.actor.undo.prior))))
  }

  predicate ByRecording(before: seq<Entry>, log: seq<Entry>, hosted: bool, id: MigrationId) {
    before <= log && forall k :: |before| <= k < |log| ==> Recording(log[k], hosted, id)
  }

  /** Nobody counted without the lock. */
  predicate Uncounted(before: seq<Entry>, log: seq<Entry>) {
    before <= log && forall k :: |before| <= k < |log| ==> !log[k].actor.Unavailable?
  }

  lemma UncountedOn(before: seq<Entry>, log: seq<Entry>, longer: seq<Entry>)
    requires before <= log && log <= longer
    ensures Uncounted(before, longer) <==> Uncounted(before, log) && Uncounted(log, longer)
  {
    assert forall k :: |before| <= k < |log| ==> longer[k] == log[k];
    if Uncounted(before, log) && Uncounted(log, longer) {
      forall k | |before| <= k < |longer| ensures !longer[k].actor.Unavailable? {
        if k < |log| {
          assert longer[k] == log[k];
        }
      }
    }
  }

  lemma StillCalm(before: seq<Entry>, log: seq<Entry>, since: nat, hosted: bool, marks: set<Service>)
    requires CalmBetween(before, since, |before|) && Quietly(before, log, hosted, marks)
    ensures CalmBetween(log, since, |log|) && log[since] == before[since]
  {
    forall k | since < k < |log| ensures Calm(log[k].actor) {
      if k < |before| {
        assert log[k] == before[k];
      } else {
        assert Calmly(log[k].actor, hosted, marks);
      }
    }
  }

  lemma StepExtends(log: seq<Entry>, e: Entry)
    requires |log| > 0 && Legal(e.actor, Last(log), e.world)
    requires e.actor.Commit? ==>
      var since, id := e.actor.since, e.actor.record.id;
      && CalmBetween(log, since, |log|) && SameCount(log[since].world.mem, e.world.mem, id)
      && (e.world.disk == Last(log).disk || SameCount(log[since].world.mem, e.world.disk, id))
    ensures StepOk(log + [e], |log|)
  {
    var log' := log + [e];
    if e.actor.Commit? {
      assert forall k :: e.actor.since < k < |log| ==> log'[k] == log[k];
    }
  }

  lemma CommitCounts(t: Table, f: Fence, undo: Undo, w: World, copied: Table)
    requires t == w.mem && UndoFits(w, f, undo)
    requires f.violations == Violations(copied, f.id) && f.watchdogErrors == WatchdogErrors(copied, f.id)
    ensures SameCount(copied, Saved(t, f), f.id) && SameCount(copied, Undone(t, f, undo), f.id)
  {
  }

  lemma Extend(log: seq<Entry>, e: Entry)
    requires Run(log) && Good(e.world) && Legal(e.actor, Last(log), e.world) && !e.actor.Commit?
    ensures Run(log + [e])
  {
    StepExtends(log, e);
    RunExtends(log, e);
  }

  /** A saved commit, with the copy taken at entry `since`. */
  lemma ExtendSaved(log: seq<Entry>, f: Fence, undo: Undo, since: nat)
    requires Run(log) && Admissible(Last(log), f) && CalmBetween(log, since, |log|)
    requires f.violations == Violations(log[since].world.mem, f.id) && f.watchdogErrors == WatchdogErrors(log[since].world.mem, f.id)
    ensures var t := Saved(Last(log).mem, f);
            Run(log + [Entry(Commit(since, f, undo), Last(log).(mem := t, disk := t))])
  {
    var w := Last(log);
    var t := Saved(w.mem, f);
    assert Good(w);
    SaveLegal(w, f, undo, since);
    StepExtends(log, Entry(Commit(since, f, undo), w.(mem := t, disk := t)));
    RunExtends(log, Entry(Commit(since, f, undo), w.(mem := t, disk := t)));
  }

  /** A release half-way, for every fence in force that is alone: authorized, and its one marker gone. */
  lemma UnmarkedRun(f: Fence, s: Service) returns (log: seq<Entry>)
    requires f.active && f.phase == Active && f.services == [s] && RecordOk(f.id, f)
    requires f.runId != "" && f.violations == 0 && f.watchdogErrors == 0
    ensures var t: Table, u: Table := map[f.id := f], map[f.id := AuthorizedFence(f, f.token)];
            log == [Entry(Host, World(t, t, {s}, {}, {})),
                    Entry(Commit(0, AuthorizedFence(f, f.token), Restore(f)), World(u, u, {s}, {}, {})),
                    Entry(Broker, World(u, u, {}, {}, {}))]
    ensures Run(log)
  {
    var authorized := AuthorizedFence(f, f.token);
    var t: Table := map[f.id := f];
    var w0 := World(t, t, {s}, {}, {});
    assert Good(w0);
    log := [Entry(Host, w0)];
    CopyStands(w0, f);
    ExtendSaved(log, authorized, Restore(f), 0);
    var u := Saved(t, authorized);
    assert u == map[f.id := authorized];
    var w1 := w0.(mem := u, disk := u);
    log := log + [Entry(Commit(0, authorized, Restore(f)), w1)];
    MarkerRemovedLegal(w1, f.id, s);
    var w2 := World(u, u, {}, {}, {});
    assert w2 == w1.(markers := w1.markers - {s});
    Extend(log, Entry(Broker, w2));
    log := log + [Entry(Broker, w2)];
  }
}
