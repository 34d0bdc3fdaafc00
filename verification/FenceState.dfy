/** The durable and in-memory state of the writer-fence broker, the invariant that every
    moment of a run satisfies, and the rule that every single step obeys.

    A run is a log of moments.  The broker (module WriterFence) appends one entry per file
    operation or service command, so a statement about every entry of a run is a statement
    about every point at which the process or the machine may stop. */
module FenceState {
  import opened Wrappers

  type Service = string
  type MigrationId = string

  datatype Phase = Unset | Activating | Active | Releasing | ReleaseAuthorized | Released

  datatype Fence = Fence(
    id: MigrationId,
    runId: string,
    services: seq<Service>,
    previouslyActive: seq<Service>,
    active: bool,
    phase: Phase,
    token: int,
    violations: nat,
    watchdogErrors: nat)

  type Table = map<MigrationId, Fence>

  /** `mem` is the broker's table, `disk` the content of the state file, `markers` the boot
      inhibitors present on disk, `running` the services that run.  `lapsed` is bookkeeping:
      the services that a rollback left without a marker. */
  datatype World = World(
    mem: Table,
    disk: Table,
    markers: set<Service>,
    running: set<Service>,
    lapsed: set<Service>)

  /** What a failed save leaves in memory for the record it tried to write. */
  datatype Undo = Restore(prior: Fence) | Delete | Keep

  function Saved(t: Table, f: Fence): Table {
    t[f.id := f]
  }

  function Undone(t: Table, f: Fence, undo: Undo): Table {
    match undo
    case Restore(prior) => t[f.id := prior]
    case Delete => t - {f.id}
    case Keep => t[f.id := f]
  }

  /** Who made a step, and which.  `Broker` removes a marker, starts or stops a service, or saves the
      table as it is; `Mark` writes a marker.  `Commit` writes the record of a fence operation, built
      from a copy of the fence taken at entry `since` of the log, and undoes it in memory when the
      save fails.  `Watch` rewrites a record from its present value.  `Unavailable` is the watchdog
      without a service controller: it counts on every active fence, without the lock that
      serialises fence operations.  `LapsedRollback` is a rollback of a fence whose reinstall left a
      marker missing.  The rest are the host (an operator or systemd starting and stopping services),
      a crash of the broker, and a machine boot. */
  datatype Actor =
    | Broker
    | Mark(service: Service)
    | Commit(since: nat, record: Fence, undo: Undo)
    | Watch(record: Fence)
    | Unavailable
    | LapsedRollback(id: MigrationId)
    | Host
    | Crash
    | Boot

  datatype Entry = Entry(actor: Actor, world: World)

  // ---------------------------------------------------------------------------------------
  // Tables

  predicate Held(f: Fence) {
    f.active || f.phase.ReleaseAuthorized?
  }

  /** Case folding of the ASCII names that the service pattern admits. */
  function Fold(s: Service): Service {
    Lower(s)
  }

  predicate Clash(left: seq<Service>, right: seq<Service>) {
    exists i, j :: 0 <= i < |left| && 0 <= j < |right| && Fold(left[i]) == Fold(right[j])
  }

  lemma SharedServiceClashes(s: Service, left: seq<Service>, right: seq<Service>)
    requires s in left && s in right
    ensures Clash(left, right)
  {
    var i :| 0 <= i < |left| && left[i] == s;
    var j :| 0 <= j < |right| && right[j] == s;
    assert Fold(left[i]) == Fold(right[j]);
  }

  function Names(services: seq<Service>): set<Service> {
    set s | s in services
  }

  predicate RecordOk(id: MigrationId, f: Fence) {
    && f.id == id && f.phase != Unset
    && (forall s :: s in f.previouslyActive ==> s in f.services)
    && (f.phase.ReleaseAuthorized? ==> !f.active)
  }

  /** Records sit under their own key with a phase, recorded writers are fenced services, and an
      authorized release is not active. */
  predicate WellFormed(t: Table) {
    forall id :: id in t ==> RecordOk(id, t[id])
  }

  /** No service is held by two fences, a held fence being active or release-authorized. */
  predicate Exclusive(t: Table) {
    forall a, b :: a in t && b in t && a != b && Held(t[a]) && Held(t[b])
      ==> !Clash(t[a].services, t[b].services)
  }

  predicate Within(services: seq<Service>, pool: set<Service>) {
    forall s :: s in services ==> s in pool
  }

  /** Every service of an active fence is in `pool`. */
  predicate Guarded(t: Table, pool: set<Service>) {
    forall id :: id in t && t[id].active ==> Within(t[id].services, pool)
  }

  function Violations(t: Table, id: MigrationId): nat {
    if id in t then t[id].violations else 0
  }

  function WatchdogErrors(t: Table, id: MigrationId): nat {
    if id in t then t[id].watchdogErrors else 0
  }

  predicate SameCount(t: Table, u: Table, id: MigrationId) {
    Violations(t, id) == Violations(u, id) && WatchdogErrors(t, id) == WatchdogErrors(u, id)
  }

  /** Nothing counted in `t` is missing from `u`. */
  predicate NotAbove(t: Table, u: Table, id: MigrationId) {
    Violations(t, id) <= Violations(u, id) && WatchdogErrors(t, id) <= WatchdogErrors(u, id)
  }

  predicate IsActiveIn(t: Table, id: MigrationId) {
    id in t && t[id].active
  }

  /** An active fence whose run identity was lost. */
  predicate Stranded(t: Table, id: MigrationId) {
    IsActiveIn(t, id) && t[id].runId == ""
  }

  /** `u` leaves no stranded fence of `t`. */
  predicate StaysStranded(t: Table, u: Table) {
    forall id :: id in t && Stranded(t, id) ==> Stranded(u, id)
  }

  predicate SameScope(f: Fence, g: Fence) {
    Held(f) && Held(g) ==>
      f.services == g.services && f.previouslyActive == g.previouslyActive && (g.runId == f.runId || g.runId == "")
  }

  /** A fence held in both tables has the same services, the same recorded writers and, unless it was
      lost, the same run identity. */
  predicate ScopeKept(t: Table, u: Table) {
    forall id :: id in t && id in u ==> SameScope(t[id], u[id])
  }

  predicate Authorizes(f: Fence, s: Service) {
    !f.active && f.phase.ReleaseAuthorized? && s in f.services
  }

  predicate Authorized(t: Table, s: Service) {
    exists id :: id in t && Authorizes(t[id], s)
  }

  predicate Resumes(f: Fence, s: Service) {
    !f.active && f.phase.ReleaseAuthorized? && s in f.previouslyActive
  }

  /** A durably authorized release recorded the service as running before. */
  predicate Resumable(t: Table, s: Service) {
    exists id :: id in t && Resumes(t[id], s)
  }

  /** Every active fence counts a violation and a watchdog error. */
  function Bumped(t: Table): Table {
    map id | id in t ::
      if t[id].active then t[id].(violations := t[id].violations + 1, watchdogErrors := t[id].watchdogErrors + 1) else t[id]
  }

  ghost predicate SameExcept(t: Table, u: Table, id: MigrationId) {
    forall k :: k != id ==> (k in t <==> k in u) && (k in t && k in u ==> t[k] == u[k])
  }

  // ---------------------------------------------------------------------------------------
  // Moments and steps

  predicate Sound(t: Table, pool: set<Service>) {
    WellFormed(t) && Exclusive(t) && Guarded(t, pool)
  }

  predicate Good(w: World) {
    && Sound(w.mem, w.markers + w.lapsed)
    && Sound(w.disk, w.markers + w.lapsed)
    && StaysStranded(w.disk, w.mem)
    && ScopeKept(w.disk, w.mem)
    && w.lapsed !! w.markers
  }

  /** No service starts while its marker exists, and the broker starts only a service that a
      durably authorized release recorded as running before. */
  predicate StartsAllowed(actor: Actor, w: World, w': World) {
    forall s :: s in w'.running && s !in w.running ==>
      && s !in w.markers
      && s !in w'.markers
      && (actor.Host? || actor.Boot? || (actor.Broker? && Resumable(w.disk, s)))
  }

  /** A marker disappears only in a broker step, and only once the release of its fence is
      durably authorized. */
  predicate RemovalsAllowed(actor: Actor, w: World, w': World) {
    forall s :: s in w.markers && s !in w'.markers ==> actor.Broker? && Authorized(w.disk, s)
  }

  ghost predicate Legal(actor: Actor, w: World, w': World) {
    && StartsAllowed(actor, w, w')
    && RemovalsAllowed(actor, w, w')
    && StaysStranded(w.disk, w'.disk)
    && (actor.LapsedRollback? || w'.lapsed <= w.lapsed)
    && match actor
       case Broker =>
         && w'.mem == w.mem && (w'.disk == w.disk || w'.disk == w'.mem)
         && w'.markers <= w.markers && w'.lapsed == w.lapsed
       case Mark(s) => w' == w.(markers := w.markers + {s}, lapsed := w.lapsed - {s})
       case Commit(_, f, undo) =>
         && w' == w.(mem := w'.mem, disk := w'.disk)
         && ((w'.mem == Saved(w.mem, f) && w'.disk == w'.mem)
             || (w'.mem == Undone(w.mem, f, undo) && (w'.disk == w.disk || w'.disk == Saved(w.mem, f))))
         && StaysStranded(w.mem, w'.mem) && ScopeKept(w.mem, w'.mem)
       case Watch(f) =>
         && w' == w.(mem := Saved(w.mem, f), disk := w'.disk) && (w'.disk == w.disk || w'.disk == w'.mem)
         && NotAbove(w.mem, w'.mem, f.id)
         && StaysStranded(w.mem, w'.mem) && ScopeKept(w.mem, w'.mem)
       case Unavailable =>
         w' == w.(mem := Bumped(w.mem), disk := w'.disk) && (w'.disk == w.disk || w'.disk == w'.mem)
       case LapsedRollback(id) =>
         && w' == w.(lapsed := w'.lapsed)
         && id in w.mem && w.mem[id].phase.ReleaseAuthorized? && w'.lapsed <= w.lapsed + Names(w.mem[id].services)
       case Host => w' == w.(running := w'.running)
       case Crash => w' == w.(mem := w.disk)
       case Boot => w' == w.(mem := w.disk, running := w'.running) && w'.running !! w.markers
  }

  /** Steps that a fence operation meets between copying a fence and writing it. */
  predicate Calm(actor: Actor) {
    actor.Broker? || actor.Mark? || actor.Unavailable? || actor.LapsedRollback? || actor.Host?
  }

  predicate CalmBetween(log: seq<Entry>, since: nat, i: nat) {
    since < i <= |log| && forall k :: since < k < i ==> Calm(log[k].actor)
  }

  /** The written record counts what the copy counted, in memory and in the file. */
  predicate CountsAsCopied(log: seq<Entry>, since: nat, i: nat, id: MigrationId)
    requires since < i < |log|
  {
    && SameCount(log[since].world.mem, log[i].world.mem, id)
    && (log[i].world.disk == log[i - 1].world.disk || SameCount(log[since].world.mem, log[i].world.disk, id))
  }

  ghost predicate StepOk(log: seq<Entry>, i: nat)
    requires 0 < i < |log|
  {
    && Legal(log[i].actor, log[i - 1].world, log[i].world)
    && (log[i].actor.Commit? ==>
          CalmBetween(log, log[i].actor.since, i) && CountsAsCopied(log, log[i].actor.since, i, log[i].actor.record.id))
  }

  /** A start-up state: memory is the file, and only services of active fences lack a marker. */
  predicate Starts(w: World) {
    w.mem == w.disk && forall s :: s in w.lapsed ==> HeldActively(w.disk, s)
  }

  predicate HeldActively(t: Table, s: Service) {
    exists id :: id in t && t[id].active && s in t[id].services
  }

  ghost predicate Run(log: seq<Entry>) {
    && |log| > 0 && Starts(log[0].world)
    && (forall i :: 0 <= i < |log| ==> Good(log[i].world))
    && (forall i :: 0 < i < |log| ==> StepOk(log, i))
  }

  function Last(log: seq<Entry>): World
    requires |log| > 0
  {
    log[|log| - 1].world
  }

  lemma StepOfPrefix(log: seq<Entry>, longer: seq<Entry>, i: nat)
    requires log <= longer && 0 < i < |log|
    ensures StepOk(log, i) <==> StepOk(longer, i)
  {
    assert forall k :: 0 <= k <= i ==> log[k] == longer[k];
  }

  lemma RunExtends(log: seq<Entry>, e: Entry)
    requires Run(log) && Good(e.world) && StepOk(log + [e], |log|)
    ensures Run(log + [e])
  {
    var log' := log + [e];
    forall i | 0 < i < |log'| ensures StepOk(log', i) {
      if i < |log| {
        StepOfPrefix(log, log', i);
      }
    }
  }

  /** A run cut at any entry is a run: stopping anywhere is covered. */
  lemma RunPrefix(log: seq<Entry>, k: nat)
    requires Run(log) && 0 < k <= |log|
    ensures Run(log[..k])
  {
    forall i | 0 < i < k ensures StepOk(log[..k], i) {
      StepOfPrefix(log[..k], log, i);
    }
  }
}
