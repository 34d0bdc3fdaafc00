/** Acceptance of signed task envelopes: each envelope passes at most once, and fencing tokens of
    one migration and domain never go back, over every run with crashes and failed saves. */
module EnvelopeGate {
  import opened Wrappers

  type Nonce = string
  type Time = int

  datatype Expiry = Unparsable | At(time: Time)

  /** The primitives that share a fence domain, and the others, each its own domain. */
  datatype Primitive =
    | FenceWriters | UnfenceWriters | VerifyQuiescence
    | ComposePreflight | ComposeStart | ComposeStop
    | CleanupStaging
    | OtherPrimitive(name: string)

  datatype Domain = HostWriters | ComposeRuntime | StagingCleanup | OwnDomain(name: string)

  datatype Key = Key(migrationId: string, domain: Domain)

  datatype Envelope = Envelope(migrationId: string, primitive: Primitive, nonce: Nonce, expiry: Expiry, token: int)

  datatype Accepted = Accepted(envelope: Envelope, at: Time)

  function FenceDomain(p: Primitive): Domain {
    match p
    case FenceWriters | UnfenceWriters | VerifyQuiescence => HostWriters
    case ComposePreflight | ComposeStart | ComposeStop => ComposeRuntime
    case CleanupStaging => StagingCleanup
    case OtherPrimitive(name) => OwnDomain(name)
  }

  function FenceKey(e: Envelope): Key {
    Key(e.migrationId, FenceDomain(e.primitive))
  }

  predicate Expired(x: Expiry, now: Time) {
    x.At? && x.time <= now
  }

  function Pruned(seen: map<Nonce, Expiry>, now: Time): map<Nonce, Expiry> {
    map n | n in seen && !Expired(seen[n], now) :: seen[n]
  }

  function TokenOf(fences: map<Key, int>, key: Key): int {
    if key in fences then fences[key] else 0
  }

  /** What the table of tokens and the table of consumed nonces must still know of an accepted
      envelope at a given time. */
  predicate Knows(fences: map<Key, int>, seen: map<Nonce, Expiry>, clock: Time, a: Accepted) {
    && a.envelope.expiry.At? && a.at <= clock
    && (a.envelope.token <= TokenOf(fences, FenceKey(a.envelope)))
    && (clock < a.envelope.expiry.time ==>
          a.envelope.nonce in seen && seen[a.envelope.nonce] == a.envelope.expiry)
  }

  predicate KnowsAll(fences: map<Key, int>, seen: map<Nonce, Expiry>, clock: Time, log: seq<Accepted>) {
    forall i :: 0 <= i < |log| ==> Knows(fences, seen, clock, log[i])
  }

  predicate NoneTwice(log: seq<Accepted>) {
    forall i, j :: 0 <= i < j < |log| ==> log[i].envelope != log[j].envelope
  }

  /** A nonce is accepted again only after the envelope that carried it has expired. */
  predicate NonceReused(a: Accepted, b: Accepted) {
    a.envelope.nonce == b.envelope.nonce ==> a.envelope.expiry.At? && a.envelope.expiry.time <= b.at
  }

  predicate NoncesOnce(log: seq<Accepted>) {
    forall i, j :: 0 <= i < j < |log| ==> NonceReused(log[i], log[j])
  }

  /** Everything was accepted before it expired, and nothing under a nonce of an old state file. */
  predicate InTime(legacy: seq<Nonce>, log: seq<Accepted>) {
    forall i :: 0 <= i < |log| ==>
      log[i].envelope.expiry.At? && log[i].at < log[i].envelope.expiry.time && log[i].envelope.nonce !in legacy
  }

  predicate TokensAscend(log: seq<Accepted>) {
    forall i, j :: 0 <= i < j < |log| && FenceKey(log[i].envelope) == FenceKey(log[j].envelope)
      ==> log[i].envelope.token <= log[j].envelope.token
  }

  /** Primitives whose tokens are compared: those on the host's writers, those on the composed runtime,
      and every other with itself. */
  predicate Together(p: Primitive, q: Primitive) {
    || p == q
    || (p in {FenceWriters, UnfenceWriters, VerifyQuiescence} && q in {FenceWriters, UnfenceWriters, VerifyQuiescence})
    || (p in {ComposePreflight, ComposeStart, ComposeStop} && q in {ComposePreflight, ComposeStart, ComposeStop})
  }

  lemma DomainsIff(p: Primitive, q: Primitive)
    ensures FenceDomain(p) == FenceDomain(q) <==> Together(p, q)
  {
  }

  predicate TokensAscendTogether(log: seq<Accepted>) {
    forall i, j :: 0 <= i < j < |log| && log[i].envelope.migrationId == log[j].envelope.migrationId
                   && Together(log[i].envelope.primitive, log[j].envelope.primitive)
      ==> log[i].envelope.token <= log[j].envelope.token
  }

  /** So an accepted unfence never carries a token below an accepted fence of the same migration. */
  lemma AscendTogether(log: seq<Accepted>)
    requires TokensAscend(log)
    ensures TokensAscendTogether(log)
  {
    forall i, j | 0 <= i < j < |log| && log[i].envelope.migrationId == log[j].envelope.migrationId
                  && Together(log[i].envelope.primitive, log[j].envelope.primitive)
      ensures log[i].envelope.token <= log[j].envelope.token
    {
      DomainsIff(log[i].envelope.primitive, log[j].envelope.primitive);
    }
  }

  /** Which accepted envelopes matter to a later one: one of the same migration and kind shuts out every
      lower token, any other leaves the decision as it was. */
  lemma TokensThatCount(legacy: seq<Nonce>, fences: map<Key, int>, seen: map<Nonce, Expiry>, first: Envelope, e: Envelope, now: Time)
    ensures var after := Raised(fences, first);
      if first.migrationId == e.migrationId && Together(first.primitive, e.primitive)
      then Passes(legacy, after, seen, e, now) <==> Passes(legacy, fences, seen, e, now) && first.token <= e.token
      else Passes(legacy, after, seen, e, now) <==> Passes(legacy, fences, seen, e, now)
  {
    DomainsIff(first.primitive, e.primitive);
  }

  /** The checks that an envelope must pass, read off the tables before the call. */
  predicate Passes(legacy: seq<Nonce>, fences: map<Key, int>, seen: map<Nonce, Expiry>, e: Envelope, now: Time) {
    && e.nonce !in legacy
    && e.nonce !in Pruned(seen, now)
    && e.expiry.At? && now < e.expiry.time
    && TokenOf(fences, FenceKey(e)) <= e.token
  }

  function Raised(fences: map<Key, int>, e: Envelope): map<Key, int> {
    if TokenOf(fences, FenceKey(e)) < e.token then fences[FenceKey(e) := e.token] else fences
  }

  /** An envelope that passes was not accepted before: while it is valid its nonce is not pruned. */
  lemma FreshEnvelope(legacy: seq<Nonce>, fences: map<Key, int>, seen: map<Nonce, Expiry>, e: Envelope,
                      clock: Time, now: Time, log: seq<Accepted>)
    requires KnowsAll(fences, seen, clock, log) && clock <= now && Passes(legacy, fences, seen, e, now)
    ensures forall i :: 0 <= i < |log| ==> log[i].envelope != e && NonceReused(log[i], Accepted(e, now))
    ensures forall i :: 0 <= i < |log| && FenceKey(log[i].envelope) == FenceKey(e) ==> log[i].envelope.token <= e.token
  {
    forall i | 0 <= i < |log| ensures log[i].envelope != e && NonceReused(log[i], Accepted(e, now)) {
      assert Knows(fences, seen, clock, log[i]);
    }
  }

  /** What holds of the accepted envelopes over any run. */
  predicate Orderly(legacy: seq<Nonce>, log: seq<Accepted>) {
    NoneTwice(log) && NoncesOnce(log) && TokensAscend(log) && InTime(legacy, log)
  }

  lemma AcceptingKeeps(legacy: seq<Nonce>, fences: map<Key, int>, seen: map<Nonce, Expiry>, e: Envelope,
                       clock: Time, now: Time, log: seq<Accepted>)
    requires KnowsAll(fences, seen, clock, log) && clock <= now && Passes(legacy, fences, seen, e, now) && Orderly(legacy, log)
    ensures Orderly(legacy, log + [Accepted(e, now)])
  {
    FreshEnvelope(legacy, fences, seen, e, clock, now, log);
  }

  /** Time passing and pruning forget no envelope that is still valid. */
  lemma PruningKeeps(fences: map<Key, int>, seen: map<Nonce, Expiry>, clock: Time, now: Time, log: seq<Accepted>)
    requires KnowsAll(fences, seen, clock, log) && clock <= now
    ensures KnowsAll(fences, seen, now, log) && KnowsAll(fences, Pruned(seen, now), now, log)
  {
    forall i | 0 <= i < |log|
      ensures Knows(fences, seen, now, log[i]) && Knows(fences, Pruned(seen, now), now, log[i])
    {
      assert Knows(fences, seen, clock, log[i]);
    }
  }

  lemma ConsumingKeeps(fences: map<Key, int>, seen: map<Nonce, Expiry>, e: Envelope, now: Time, log: seq<Accepted>)
    requires KnowsAll(fences, seen, now, log) && e.nonce !in seen && e.expiry.At?
    ensures KnowsAll(Raised(fences, e), seen[e.nonce := e.expiry], now, log)
    ensures e.token >= TokenOf(fences, FenceKey(e)) ==>
      KnowsAll(Raised(fences, e), seen[e.nonce := e.expiry], now, log + [Accepted(e, now)])
  {
    var fences', seen' := Raised(fences, e), seen[e.nonce := e.expiry];
    forall i | 0 <= i < |log| ensures Knows(fences', seen', now, log[i]) {
      assert Knows(fences, seen, now, log[i]);
    }
    if e.token >= TokenOf(fences, FenceKey(e)) {
      var log' := log + [Accepted(e, now)];
      forall i | 0 <= i < |log'| ensures Knows(fences', seen', now, log'[i]) {
        if i < |log| {
          assert Knows(fences', seen', now, log[i]);
        }
      }
    }
  }

  class Gate {
    const legacy: seq<Nonce>
    var memFences: map<Key, int>
    var memSeen: map<Nonce, Expiry>
    var diskFences: map<Key, int>
    var diskSeen: map<Nonce, Expiry>
    var clock: Time
    var log: seq<Accepted>

    /** Everything accepted so far is known to the state file and to memory. */
    ghost predicate Valid()
      reads this
    {
      && KnowsAll(diskFences, diskSeen, clock, log)
      && KnowsAll(memFences, memSeen, clock, log)
      && Orderly(legacy, log)
    }

    constructor (legacy: seq<Nonce>, fences: map<Key, int>, seen: map<Nonce, Expiry>, now: Time)
      ensures Valid() && log == []
    {
      this.legacy, clock, log := legacy, now, [];
      memFences, memSeen, diskFences, diskSeen := fences, seen, fences, seen;
    }

    /** Deletes the expired nonces, one by one. */
    method PruneSeen(now: Time)
      modifies `memSeen
      ensures memSeen == Pruned(old(memSeen), now)
    {
      var rest := memSeen.Keys;
      while rest != {}
        invariant rest <= memSeen.Keys <= old(memSeen).Keys
        invariant forall n :: n in memSeen ==> memSeen[n] == old(memSeen)[n]
        invariant forall n :: n in old(memSeen) && n !in rest ==> (n in memSeen <==> !Expired(old(memSeen)[n], now))
        decreases rest
      {
        var n :| n in rest;
        if Expired(memSeen[n], now) {
          memSeen := memSeen - {n};
        }
        rest := rest - {n};
      }
    }

    /** The rejections in the source's order.  A failed save leaves the envelope consumed in memory
        but reports an error. */
    method AcceptFence(e: Envelope, now: Time, outcome: SaveOutcome) returns (ok: bool)
      requires Valid() && clock <= now
      modifies this
      ensures Valid() && clock == now
      ensures ok <==> Passes(legacy, old(memFences), old(memSeen), e, now) && outcome == SaveOk
      ensures log == if ok then old(log) + [Accepted(e, now)] else old(log)
      ensures ok ==> diskFences == memFences == Raised(old(memFences), e)
      ensures ok ==> diskSeen == memSeen == Pruned(old(memSeen), now)[e.nonce := e.expiry]
      ensures !ok ==> (diskFences == old(diskFences) && diskSeen == old(diskSeen)) || (diskFences == memFences && diskSeen == memSeen)
    {
      ghost var before := clock;
      PruningKeeps(diskFences, diskSeen, clock, now, log);
      PruningKeeps(memFences, memSeen, clock, now, log);
      clock := now;
      if e.nonce in legacy {
        return false;
      }
      PruneSeen(now);
      if e.nonce in memSeen {
        return false;
      }
      if !e.expiry.At? || e.expiry.time <= now {
        return false;
      }
      if e.token < TokenOf(memFences, FenceKey(e)) {
        return false;
      }
      AcceptingKeeps(legacy, old(memFences), old(memSeen), e, before, now, log);
      ConsumingKeeps(memFences, memSeen, e, now, log);
      memFences := Raised(memFences, e);
      memSeen := memSeen[e.nonce := e.expiry];
      if outcome != FailsKept {
        diskFences, diskSeen := memFences, memSeen;
      }
      ok := outcome == SaveOk;
      if ok {
        log := log + [Accepted(e, now)];
      }
    }

    /** A writer-fence operation saves the shared state. */
    method OtherSave()
      requires Valid()
      modifies this
      ensures Valid() && log == old(log) && diskFences == memFences && diskSeen == memSeen
    {
      diskFences, diskSeen := memFences, memSeen;
    }

    method CrashAndReload()
      requires Valid()
      modifies this
      ensures Valid() && log == old(log) && memFences == diskFences == old(diskFences) && memSeen == diskSeen == old(diskSeen)
    {
      memFences, memSeen := diskFences, diskSeen;
    }

    /** Any run: whatever is offered, whenever, with saves failing and the broker crashing, no envelope
        is accepted twice, none late or under an old nonce, and the tokens that are compared ascend. */
    method AnyRun(steps: nat)
      requires Valid()
      modifies this
      ensures Valid() && NoneTwice(log) && NoncesOnce(log) && InTime(legacy, log) && TokensAscendTogether(log) && old(log) <= log
    {
      for i := 0 to steps
        invariant Valid() && old(log) <= log
      {
        var choice, e, now, outcome := *, *, *, *;
        if choice == 0 && clock <= now {
          var _ := AcceptFence(e, now, outcome);
        } else if choice == 1 {
          OtherSave();
        } else {
          CrashAndReload();
        }
      }
      AscendTogether(log);
    }
  }
}
