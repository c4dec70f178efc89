/**
 The cached OIDC provider metadata and its epoch-gated refresh
 (backend/crates/api/src/auth/oidc.rs).

 Callers interleave at their await points. A state machine gives the meaning of every
 step; class OidcProvider performs the same steps on fields, as the source does.
 */
module OidcRefresh {
  import opened Wrappers

  // One hour, in the clock's nanoseconds.
  const METADATA_CACHE_TTL := 3600 * 1_000_000_000

  // `attempt` is a wrapping 64-bit counter.
  const EPOCHS: nat := 0x1_0000_0000_0000_0000

  type CallerId = nat

  datatype Endpoints = Endpoints(document: int)
  datatype Keys = Keys(document: int)
  datatype Metadata = Metadata(endpoints: Endpoints, keys: Keys)
  datatype CachedMetadata = CachedMetadata(metadata: Metadata, fetchedAt: int)
  datatype MetadataCache = MetadataCache(cached: Option<CachedMetadata>, attempt: nat, failure: Option<string>)
  datatype Snapshot = Snapshot(cached: CachedMetadata, attempt: nat)

  function TakeSnapshot(cache: MetadataCache): Result<Snapshot, string> {
    match cache.cached
    case Some(cached) => Ok(Snapshot(cached, cache.attempt))
    case None => Err(cache.failure.UnwrapOr("OIDC metadata unavailable"))
  }

  predicate Fresh(cache: MetadataCache, now: int) {
    cache.cached.Some? && now - cache.cached.value.fetchedAt <= METADATA_CACHE_TTL
  }

  // ---------- state ----------

  /** What a suspended call remembers. `seen` is the number of publications at the time
      of the observation: a history annotation no step reads. */
  datatype Request =
    | Discover(observed: MetadataCache, seen: nat)
    | Rekey(snapshot: Snapshot, seen: nat)

  datatype Fetched = Discovered(metadata: Metadata) | Rekeyed(keys: Keys) | Failed(message: string)

  datatype Phase =
    | Waiting(request: Request)                    // at the refresh gate
    | Holding(request: Request)                    // gate taken, cache not yet re-read
    | Fetching(request: Request)                   // network I/O in flight
    | Writing(request: Request, fetched: Fetched)  // waiting for the write lock

  /** A published outcome: who published, what it had observed, what it fetched, and when. */
  datatype Outcome = Outcome(caller: CallerId, seen: nat, fetched: Fetched, at: int)

  /** A snapshot handed to a caller, with the number of publications it reflects. */
  datatype Issued = Issued(snapshot: Snapshot, seen: nat)

  /** A finished call: the request it resolved, the publications before it returned, the time, the answer. */
  datatype Answer =
    | MetadataAnswer(seen: nat, published: nat, now: int, result: Result<Snapshot, string>)
    | ClientAnswer(seen: nat, published: nat, client: Result<Metadata, string>)

  datatype State = State(
    cache: MetadataCache,
    gate: Option<CallerId>,
    phases: map<CallerId, Phase>,
    clock: int,
    outcomes: seq<Outcome>,
    issued: set<Issued>,
    answers: seq<Answer>)

  const INIT := State(MetadataCache(None, 0, None), None, map[], 0, [], {}, [])

  // ---------- steps ----------

  datatype Step =
    | StartMetadata(c: CallerId, now: int)
    | StartRefresh(c: CallerId, from: Issued)
    | TakeGate(c: CallerId)
    | Recheck(c: CallerId, now: int)
    | FetchReturns(c: CallerId, fetched: Fetched)
    | Publish(c: CallerId, now: int)
    | Cancel(c: CallerId)

  predicate FetchedFits(request: Request, fetched: Fetched) {
    match fetched
    case Discovered(_) => request.Discover?
    case Rekeyed(_) => request.Rekey?
    case Failed(_) => true
  }

  predicate Enabled(s: State, step: Step) {
    match step
    case StartMetadata(c, now) => c !in s.phases && s.clock <= now
    case StartRefresh(c, from) => c !in s.phases && from in s.issued
    case TakeGate(c) => c in s.phases && s.phases[c].Waiting? && s.gate == None
    case Recheck(c, now) => c in s.phases && s.phases[c].Holding? && s.clock <= now
    case FetchReturns(c, fetched) =>
      c in s.phases && s.phases[c].Fetching? && FetchedFits(s.phases[c].request, fetched)
    case Publish(c, now) =>
      && c in s.phases && s.phases[c].Writing? && s.clock <= now
      && FetchedFits(s.phases[c].request, s.phases[c].fetched)
    case Cancel(c) => c in s.phases
  }

  /** Drop a call: its future is gone, and with it the gate if it held it. */
  function Leave(s: State, c: CallerId): State {
    s.(phases := s.phases - {c}, gate := if s.gate == Some(c) then None else s.gate)
  }

  function AnswerMetadata(s: State, c: CallerId, seen: nat, now: int, result: Result<Snapshot, string>): State {
    Leave(s, c).(
      clock := now,
      issued := if result.Ok? then s.issued + {Issued(result.value, |s.outcomes|)} else s.issued,
      answers := s.answers + [MetadataAnswer(seen, |s.outcomes|, now, result)])
  }

  function AnswerClient(s: State, c: CallerId, seen: nat, now: int, result: Result<Metadata, string>): State {
    Leave(s, c).(
      clock := now,
      answers := s.answers + [ClientAnswer(seen, |s.outcomes|, result)])
  }

  function ClientOf(r: Result<Snapshot, string>): Result<Metadata, string> {
    match r
    case Ok(snapshot) => Ok(snapshot.cached.metadata)
    case Err(e) => Err(e)
  }

  function ToPhase(s: State, c: CallerId, p: Phase): State {
    s.(phases := s.phases[c := p])
  }

  function ObservedEpoch(request: Request): nat {
    match request
    case Discover(observed, _) => observed.attempt
    case Rekey(snapshot, _) => snapshot.attempt
  }

  /** The decision taken under the gate after re-reading the cache. */
  predicate MustFetch(s: State, request: Request, now: int) {
    s.cache.attempt == ObservedEpoch(request) && (request.Discover? ==> !Fresh(s.cache, now))
  }

  /** The cache after a fetch outcome is written. */
  function Written(cache: MetadataCache, request: Request, fetched: Fetched, now: int): MetadataCache
    requires FetchedFits(request, fetched)
  {
    var attempt := (cache.attempt + 1) % EPOCHS;
    match fetched
    case Discovered(metadata) => MetadataCache(Some(CachedMetadata(metadata, now)), attempt, None)
    case Rekeyed(keys) =>
      var base := request.snapshot.cached;
      MetadataCache(Some(CachedMetadata(base.metadata.(keys := keys), base.fetchedAt)), attempt, None)
    case Failed(message) => cache.(attempt := attempt, failure := Some(message))
  }

  function PublishStep(s: State, c: CallerId, now: int): State
    requires c in s.phases && s.phases[c].Writing? && FetchedFits(s.phases[c].request, s.phases[c].fetched)
  {
    var Writing(request, fetched) := s.phases[c];
    var s1 := s.(
      cache := Written(s.cache, request, fetched, now),
      outcomes := s.outcomes + [Outcome(c, request.seen, fetched, now)]);
    match request
    case Discover(_, seen) =>
      // A failed discovery still answers from an older snapshot when there is one.
      AnswerMetadata(s1, c, seen, now, TakeSnapshot(s1.cache))
    case Rekey(_, seen) =>
      AnswerClient(s1, c, seen, now,
                   if fetched.Failed? then Err(fetched.message) else ClientOf(TakeSnapshot(s1.cache)))
  }

  function Apply(s: State, step: Step): State
    requires Enabled(s, step)
  {
    match step
    case StartMetadata(c, now) =>
      var seen := |s.outcomes|;
      if Fresh(s.cache, now) then AnswerMetadata(s, c, seen, now, TakeSnapshot(s.cache))
      else ToPhase(s, c, Waiting(Discover(s.cache, seen))).(clock := now)
    case StartRefresh(c, from) => ToPhase(s, c, Waiting(Rekey(from.snapshot, from.seen)))
    case TakeGate(c) => ToPhase(s, c, Holding(s.phases[c].request)).(gate := Some(c))
    case Recheck(c, now) =>
      var request := s.phases[c].request;
      if MustFetch(s, request, now) then ToPhase(s, c, Fetching(request)).(clock := now)
      else if request.Discover? then AnswerMetadata(s, c, request.seen, now, TakeSnapshot(s.cache))
      else AnswerClient(s, c, request.seen, now, ClientOf(TakeSnapshot(s.cache)))
    case FetchReturns(c, fetched) => ToPhase(s, c, Writing(s.phases[c].request, fetched))
    case Publish(c, now) => PublishStep(s, c, now)
    case Cancel(c) => Leave(s, c)
  }

  // ---------- reference: what the cache should hold, read off the log of outcomes ----------

  /** Endpoints and fetch time of the last successful discovery. */
  ghost function LastDiscovery(log: seq<Outcome>): Option<(Endpoints, int)> {
    if log == [] then None
    else
      var last := log[|log| - 1];
      if last.fetched.Discovered? then Some((last.fetched.metadata.endpoints, last.at))
      else LastDiscovery(log[..|log| - 1])
  }

  /** Keys of the last successful fetch of either kind. */
  ghost function LastKeys(log: seq<Outcome>): Option<Keys> {
    if log == [] then None
    else
      var last := log[|log| - 1];
      match last.fetched
      case Discovered(metadata) => Some(metadata.keys)
      case Rekeyed(keys) => Some(keys)
      case Failed(_) => LastKeys(log[..|log| - 1])
  }

  ghost function LastFailure(log: seq<Outcome>): Option<string> {
    if log != [] && log[|log| - 1].fetched.Failed? then Some(log[|log| - 1].fetched.message) else None
  }

  ghost function Reference(log: seq<Outcome>): MetadataCache {
    MetadataCache(
      match (LastDiscovery(log), LastKeys(log)) {
        case (Some((endpoints, at)), Some(keys)) => Some(CachedMetadata(Metadata(endpoints, keys), at))
        case _ => None
      },
      |log| % EPOCHS,
      LastFailure(log))
  }

  // ---------- invariant ----------

  ghost predicate ReflectsLog(snapshot: Snapshot, seen: nat, log: seq<Outcome>) {
    && seen <= |log|
    && snapshot.attempt == seen % EPOCHS
    && Reference(log[..seen]).cached == Some(snapshot.cached)
  }

  ghost predicate RequestReflectsLog(request: Request, log: seq<Outcome>) {
    match request
    case Discover(observed, seen) => seen <= |log| && observed == Reference(log[..seen])
    case Rekey(snapshot, seen) => ReflectsLog(snapshot, seen, log)
  }

  ghost predicate LogOk(log: seq<Outcome>) {
    // exactly one outcome per epoch, published by a caller that had observed that epoch
    && (forall i | 0 <= i < |log| :: log[i].seen == i)
    // keys are only ever refreshed on top of a discovery
    && (forall i | 0 <= i < |log| :: log[i].fetched.Rekeyed? ==> Reference(log[..i]).cached.Some?)
  }

  /** Every suspended write carries a result of the kind its request asked for. */
  ghost predicate KindsFit(s: State) {
    forall c <- s.phases :: s.phases[c].Writing? ==> FetchedFits(s.phases[c].request, s.phases[c].fetched)
  }

  ghost predicate GateOk(s: State) {
    forall c <- s.phases :: !s.phases[c].Waiting? <==> s.gate == Some(c)
  }

  ghost predicate AnswerOk(a: Answer, log: seq<Outcome>) {
    && a.seen <= a.published <= |log|
    && match a {
         case MetadataAnswer(seen, published, now, Ok(snapshot)) =>
           && ReflectsLog(snapshot, published, log)
           && (now - snapshot.cached.fetchedAt <= METADATA_CACHE_TTL || seen < published)
         case MetadataAnswer(seen, published, _, Err(message)) =>
           Reference(log[..published]).cached == None && LastFailure(log[..published]) == Some(message)
         case ClientAnswer(seen, published, Ok(metadata)) =>
           && seen < published
           && Reference(log[..published]).cached.Some?
           && Reference(log[..published]).cached.value.metadata == metadata
         case ClientAnswer(seen, published, Err(message)) =>
           seen == published - 1 && log[published - 1].fetched == Failed(message)
       }
  }

  ghost predicate Inv(s: State) {
    && s.cache == Reference(s.outcomes)
    && LogOk(s.outcomes)
    && KindsFit(s)
    && GateOk(s)
    && (s.gate.Some? ==> s.gate.value in s.phases)
    && (forall c <- s.phases :: RequestReflectsLog(s.phases[c].request, s.outcomes))
    && (forall c <- s.phases ::
          s.phases[c].Fetching? || s.phases[c].Writing? ==> s.phases[c].request.seen == |s.outcomes|)
    && (forall i <- s.issued :: ReflectsLog(i.snapshot, i.seen, s.outcomes))
    && (forall a <- s.answers :: AnswerOk(a, s.outcomes))
  }

  /** No suspended call is a whole lap of the 64-bit counter behind. */
  ghost predicate NoLap(s: State) {
    forall c <- s.phases :: |s.outcomes| - s.phases[c].request.seen < EPOCHS
  }

  // ---------- the invariant is kept by every step ----------

  lemma ModEqual(a: nat, b: nat)
    requires a <= b < a + EPOCHS
    ensures a % EPOCHS == b % EPOCHS <==> a == b
  {
    if a % EPOCHS == b % EPOCHS {
      var k := b / EPOCHS - a / EPOCHS;
      assert b - a == EPOCHS * k;
    }
  }

  lemma SeenIsCurrent(s: State, request: Request)
    requires Inv(s) && RequestReflectsLog(request, s.outcomes) && |s.outcomes| - request.seen < EPOCHS
    ensures ObservedEpoch(request) == s.cache.attempt <==> request.seen == |s.outcomes|
  {
    ModEqual(request.seen, |s.outcomes|);
  }

  /** Appending an outcome does not disturb what earlier observers saw. */
  lemma PrefixStable(log: seq<Outcome>, o: Outcome, seen: nat)
    requires seen <= |log|
    ensures (log + [o])[..seen] == log[..seen]
  {
  }

  lemma ReferenceSnoc(log: seq<Outcome>, c: CallerId, request: Request, fetched: Fetched, now: int)
    requires LogOk(log) && FetchedFits(request, fetched)
    requires RequestReflectsLog(request, log) && request.seen == |log|
    ensures var log' := log + [Outcome(c, request.seen, fetched, now)];
            && LogOk(log')
            && Written(Reference(log), request, fetched, now) == Reference(log')
  {
    var o := Outcome(c, request.seen, fetched, now);
    var log' := log + [o];
    assert log'[..|log|] == log == log[..|log|];
    forall i | 0 <= i < |log'|
      ensures log'[i].seen == i && (log'[i].fetched.Rekeyed? ==> Reference(log'[..i]).cached.Some?)
    {
      assert log'[..i] == log[..i];
    }
    assert (|log| % EPOCHS + 1) % EPOCHS == (|log| + 1) % EPOCHS;
    KeysFollowDiscovery(log);
  }

  lemma {:induction false} KeysFollowDiscovery(log: seq<Outcome>)
    requires LogOk(log)
    ensures LastDiscovery(log).Some? ==> LastKeys(log).Some?
    ensures LastDiscovery(log) == None ==> LastKeys(log) == None
  {
    if log != [] {
      var init := log[..|log| - 1];
      forall i | 0 <= i < |init| ensures init[..i] == log[..i] {}
      KeysFollowDiscovery(init);
    }
  }

  lemma AnswersStable(s: State, o: Outcome)
    requires Inv(s)
    ensures forall a <- s.answers :: AnswerOk(a, s.outcomes + [o])
    ensures forall i <- s.issued :: ReflectsLog(i.snapshot, i.seen, s.outcomes + [o])
  {
    forall a <- s.answers ensures AnswerOk(a, s.outcomes + [o]) {
      PrefixStable(s.outcomes, o, a.published);
    }
    forall i <- s.issued ensures ReflectsLog(i.snapshot, i.seen, s.outcomes + [o]) {
      PrefixStable(s.outcomes, o, i.seen);
    }
  }

  lemma PublishKeepsInv(s: State, c: CallerId, now: int)
    requires Inv(s) && NoLap(s) && Enabled(s, Publish(c, now))
    ensures Inv(Apply(s, Publish(c, now)))
  {
    var Writing(request, fetched) := s.phases[c];
    var o := Outcome(c, request.seen, fetched, now);
    var log' := s.outcomes + [o];
    var s' := Apply(s, Publish(c, now));
    ReferenceSnoc(s.outcomes, c, request, fetched, now);
    AnswersStable(s, o);
    assert log'[..|log'|] == log';
    assert s'.cache == Reference(log') == Reference(log'[..|log'|]);
    forall d <- s'.phases ensures RequestReflectsLog(s'.phases[d].request, log') {
      PrefixStable(s.outcomes, o, s.phases[d].request.seen);
    }
    if request.Rekey? && !fetched.Failed? {
      assert s'.cache.cached.Some?;
    }
    assert forall a <- s.answers :: a in s'.answers;
    forall a <- s'.answers ensures AnswerOk(a, log') {
      if a !in s.answers {
        assert a == s'.answers[|s'.answers| - 1];
      }
    }
  }

  lemma RecheckKeepsInv(s: State, c: CallerId, now: int)
    requires Inv(s) && NoLap(s) && Enabled(s, Recheck(c, now))
    ensures Inv(Apply(s, Recheck(c, now)))
  {
    var request := s.phases[c].request;
    var s' := Apply(s, Recheck(c, now));
    SeenIsCurrent(s, request);
    assert s.outcomes[..|s.outcomes|] == s.outcomes;
    EmptyCacheFailed(s.outcomes);
    if request.Rekey? && !MustFetch(s, request, now) {
      DiscoveryPersists(s.outcomes, request.seen, |s.outcomes|);
    }
    forall a <- s'.answers ensures AnswerOk(a, s.outcomes) {
      if a !in s.answers {
        assert a == s'.answers[|s'.answers| - 1];
      }
    }
  }

  /** As long as nothing was discovered, the last outcome is a failure. */
  lemma EmptyCacheFailed(log: seq<Outcome>)
    requires LogOk(log)
    ensures log != [] && Reference(log).cached == None ==> LastFailure(log).Some?
  {
    if log != [] && !log[|log| - 1].fetched.Failed? {
      var init := log[..|log| - 1];
      forall i | 0 <= i < |init| ensures init[..i] == log[..i] {}
      KeysFollowDiscovery(init);
      KeysFollowDiscovery(log);
    }
  }

  /** Once filled, the cache is never emptied. */
  lemma {:induction false} DiscoveryPersists(log: seq<Outcome>, i: nat, j: nat)
    requires LogOk(log) && i <= j <= |log|
    requires Reference(log[..i]).cached.Some?
    ensures Reference(log[..j]).cached.Some?
    decreases j - i
  {
    if i < j {
      DiscoveryPersists(log, i, j - 1);
      assert log[..j][..j - 1] == log[..j - 1];
    }
  }

  lemma StartKeepsInv(s: State, c: CallerId, now: int)
    requires Inv(s) && NoLap(s) && Enabled(s, StartMetadata(c, now))
    ensures Inv(Apply(s, StartMetadata(c, now)))
  {
    var s' := Apply(s, StartMetadata(c, now));
    assert s.outcomes[..|s.outcomes|] == s.outcomes;
    forall a <- s'.answers ensures AnswerOk(a, s.outcomes) {
      if a !in s.answers {
        assert a == s'.answers[|s'.answers| - 1];
      }
    }
  }

  /** Steps that neither answer nor publish. */
  lemma QuietStepKeepsInv(s: State, step: Step)
    requires Inv(s) && Enabled(s, step)
    requires !step.Publish? && !step.Recheck? && !step.StartMetadata?
    ensures Inv(Apply(s, step)) && Apply(s, step).outcomes == s.outcomes
  {
    hide ReflectsLog, AnswerOk, LogOk, Reference;
    if step.StartRefresh? {
      assert RequestReflectsLog(Rekey(step.from.snapshot, step.from.seen), s.outcomes);
    }
  }

  lemma StepKeepsInv(s: State, step: Step)
    requires Inv(s) && NoLap(s) && Enabled(s, step)
    ensures Inv(Apply(s, step))
    ensures s.outcomes <= Apply(s, step).outcomes
  {
    hide Inv, NoLap;
    match step
    case Publish(c, now) => PublishKeepsInv(s, c, now);
    case Recheck(c, now) => RecheckKeepsInv(s, c, now);
    case StartMetadata(c, now) => StartKeepsInv(s, c, now);
    case _ => QuietStepKeepsInv(s, step);
  }

  // ---------- whole runs ----------

  /** Any interleaving of callers, cancellations included, from a cold cache. */
  ghost predicate IsTrace(states: seq<State>, steps: seq<Step>) {
    && |states| == |steps| + 1
    && states[0] == INIT
    && (forall i | 0 <= i < |steps| :: Enabled(states[i], steps[i]) && states[i + 1] == Apply(states[i], steps[i]))
  }

  ghost predicate IsRun(states: seq<State>, steps: seq<Step>) {
    IsTrace(states, steps) && forall s <- states :: NoLap(s)
  }

  lemma {:induction false} RunKeepsInv(states: seq<State>, steps: seq<Step>, i: nat)
    requires IsRun(states, steps) && i < |states|
    ensures Inv(states[i])
  {
    if i > 0 {
      RunKeepsInv(states, steps, i - 1);
      StepKeepsInv(states[i - 1], steps[i - 1]);
    }
  }

  lemma {:induction false} LogGrows(states: seq<State>, steps: seq<Step>, i: nat, j: nat)
    requires IsRun(states, steps) && i <= j < |states|
    ensures states[i].outcomes <= states[j].outcomes
    decreases j - i
  {
    if i < j {
      LogGrows(states, steps, i, j - 1);
      RunKeepsInv(states, steps, j - 1);
      StepKeepsInv(states[j - 1], steps[j - 1]);
    }
  }

  /** The cache always holds the endpoints and fetch time of the last successful discovery
      together with the keys of the last successful fetch of either kind; `attempt` counts the
      published outcomes; the failure is that of the last outcome. */
  lemma CacheHoldsLastFetches(states: seq<State>, steps: seq<Step>, i: nat)
    requires IsRun(states, steps) && i < |states|
    ensures var s := states[i];
            && s.cache.attempt == |s.outcomes| % EPOCHS
            && s.cache.failure == LastFailure(s.outcomes)
            && (s.cache.cached == None <==> LastDiscovery(s.outcomes) == None)
            && (s.cache.cached.Some? ==>
                  && LastKeys(s.outcomes) == Some(s.cache.cached.value.metadata.keys)
                  && LastDiscovery(s.outcomes)
                     == Some((s.cache.cached.value.metadata.endpoints, s.cache.cached.value.fetchedAt)))
  {
    RunKeepsInv(states, steps, i);
    KeysFollowDiscovery(states[i].outcomes);
  }

  /** Once filled, the cache stays filled to the end of the run. */
  lemma NeverEmptied(states: seq<State>, steps: seq<Step>, i: nat, j: nat)
    requires IsRun(states, steps) && i <= j < |states|
    requires states[i].cache.cached.Some?
    ensures states[j].cache.cached.Some?
  {
    RunKeepsInv(states, steps, i);
    RunKeepsInv(states, steps, j);
    LogGrows(states, steps, i, j);
    var log := states[j].outcomes;
    assert log[..|states[i].outcomes|] == states[i].outcomes;
    assert log[..|log|] == log;
    DiscoveryPersists(log, |states[i].outcomes|, |log|);
  }

  /** Two snapshots less than a lap apart that carry the same `attempt` hold the same metadata. */
  lemma SnapshotsAgree(states: seq<State>, steps: seq<Step>, i: nat, a: Issued, b: Issued)
    requires IsRun(states, steps) && i < |states|
    requires a in states[i].issued && b in states[i].issued
    requires a.seen < b.seen + EPOCHS && b.seen < a.seen + EPOCHS
    ensures a.snapshot.attempt == b.snapshot.attempt ==> a.snapshot == b.snapshot
  {
    RunKeepsInv(states, steps, i);
    if a.seen <= b.seen { ModEqual(a.seen, b.seen); } else { ModEqual(b.seen, a.seen); }
  }

  ghost predicate InFlight(s: State, c: CallerId) {
    c in s.phases && (s.phases[c].Fetching? || s.phases[c].Writing?)
  }

  /** Single flight: one fetch at a time, started on the epoch that is still current, and one
      published outcome for each epoch. */
  lemma SingleFlight(states: seq<State>, steps: seq<Step>, i: nat)
    requires IsRun(states, steps) && i < |states|
    ensures var s := states[i];
            && (forall c, d :: InFlight(s, c) && InFlight(s, d) ==> c == d)
            && (forall c :: InFlight(s, c) ==>
                  s.phases[c].request.seen == |s.outcomes| && ObservedEpoch(s.phases[c].request) == s.cache.attempt)
            && (forall j, k | 0 <= j < k < |s.outcomes| :: s.outcomes[j].seen != s.outcomes[k].seen)
  {
    RunKeepsInv(states, steps, i);
    var s := states[i];
    assert s.outcomes[..|s.outcomes|] == s.outcomes;
  }

  /** A key refresh replaces the keys and nothing else: it never brings back older endpoints
      and never extends the discovery's lifetime. */
  lemma KeyRefreshKeepsDiscovery(states: seq<State>, steps: seq<Step>, i: nat, c: CallerId, now: int)
    requires IsRun(states, steps) && i < |steps| && steps[i] == Publish(c, now)
    requires states[i].phases[c].fetched.Rekeyed?
    ensures states[i].cache.cached.Some?
    ensures var before := states[i].cache.cached.value;
            states[i + 1].cache.cached
            == Some(before.(metadata := before.metadata.(keys := states[i].phases[c].fetched.keys)))
  {
    RunKeepsInv(states, steps, i);
    var s := states[i];
    assert s.outcomes[..|s.outcomes|] == s.outcomes;
  }

  /** Every completed call: metadata is within its lifetime or newer than what the caller first
      saw; a refreshed client carries an epoch newer than the snapshot it was asked to replace,
      and fails only by sharing the failure of the latest published fetch. */
  lemma AnswersAreCurrent(states: seq<State>, steps: seq<Step>, i: nat, a: Answer)
    requires IsRun(states, steps) && i < |states| && a in states[i].answers
    ensures AnswerOk(a, states[i].outcomes)
  {
    RunKeepsInv(states, steps, i);
  }

  // ---------- what each step answers ----------

  ghost predicate Answers(s: State, s': State, c: CallerId, a: Answer) {
    s'.answers == s.answers + [a] && c !in s'.phases
  }

  ghost predicate StillSuspended(s: State, s': State, c: CallerId, phase: Phase) {
    s'.answers == s.answers && c in s'.phases && s'.phases[c] == phase
  }

  /** A first read is answered at once exactly when the cache is within its lifetime. */
  lemma WarmReadersNeverWait(states: seq<State>, steps: seq<Step>, i: nat, c: CallerId, now: int)
    requires IsRun(states, steps) && i < |steps| && steps[i] == StartMetadata(c, now)
    ensures var (s, s') := (states[i], states[i + 1]);
            var n := |s.outcomes|;
            if s.cache.cached.Some? && now - s.cache.cached.value.fetchedAt <= METADATA_CACHE_TTL
            then Answers(s, s', c, MetadataAnswer(n, n, now, Ok(Snapshot(s.cache.cached.value, s.cache.attempt))))
            else StillSuspended(s, s', c, Waiting(Discover(s.cache, n)))
  {
  }

  /** Under the gate. A key refresh fetches exactly when nothing was published since its snapshot;
      otherwise it is answered with the cached metadata, even when the last outcome is a failure. A
      discovery is answered from the cache when something was published or the cache is fresh, with
      an error only when nothing was ever discovered, and fetches otherwise. */
  lemma RecheckAnswers(states: seq<State>, steps: seq<Step>, i: nat, c: CallerId, now: int)
    requires IsRun(states, steps) && i < |steps| && steps[i] == Recheck(c, now)
    ensures var (s, s') := (states[i], states[i + 1]);
            var (request, n) := (s.phases[c].request, |s.outcomes|);
            match request
            case Rekey(_, seen) =>
              if seen == n then StillSuspended(s, s', c, Fetching(request))
              else
                s.cache.cached.Some? && Answers(s, s', c, ClientAnswer(seen, n, Ok(s.cache.cached.value.metadata)))
            case Discover(_, seen) =>
              if seen < n
                 || (s.cache.cached.Some? && now - s.cache.cached.value.fetchedAt <= METADATA_CACHE_TTL)
              then
                if s.cache.cached.Some? then
                  Answers(s, s', c, MetadataAnswer(seen, n, now, Ok(Snapshot(s.cache.cached.value, s.cache.attempt))))
                else
                  s.cache.failure.Some? && Answers(s, s', c, MetadataAnswer(seen, n, now, Err(s.cache.failure.value)))
              else StillSuspended(s, s', c, Fetching(request))
  {
    RunKeepsInv(states, steps, i);
    var s := states[i];
    var request := s.phases[c].request;
    assert s in states && NoLap(s);
    SeenIsCurrent(s, request);
    EmptyCacheFailed(s.outcomes);
    assert s.outcomes[..|s.outcomes|] == s.outcomes;
    if request.Rekey? {
      DiscoveryPersists(s.outcomes, request.seen, |s.outcomes|);
    }
    hide Reference, LogOk, AnswerOk;
  }

  /** A publication answers its own caller: a failed key refresh with its own failure, a failed
      discovery with the older metadata when there is any, a success with what it fetched. */
  lemma PublishAnswers(states: seq<State>, steps: seq<Step>, i: nat, c: CallerId, now: int)
    requires IsRun(states, steps) && i < |steps| && steps[i] == Publish(c, now)
    ensures var (s, s') := (states[i], states[i + 1]);
            var (request, n) := (s.phases[c].request, |s.outcomes|);
            var attempt := (n + 1) % EPOCHS;
            match (request, s.phases[c].fetched)
            case (Rekey(_, seen), Failed(message)) => Answers(s, s', c, ClientAnswer(seen, n + 1, Err(message)))
            case (Rekey(snapshot, seen), Rekeyed(keys)) =>
              Answers(s, s', c, ClientAnswer(seen, n + 1, Ok(snapshot.cached.metadata.(keys := keys))))
            case (Discover(_, seen), Discovered(metadata)) =>
              Answers(s, s', c,
                      MetadataAnswer(seen, n + 1, now, Ok(Snapshot(CachedMetadata(metadata, now), attempt))))
            case (Discover(_, seen), Failed(message)) =>
              Answers(s, s', c,
                      MetadataAnswer(seen, n + 1, now,
                        if s.cache.cached.Some? then Ok(Snapshot(s.cache.cached.value, attempt)) else Err(message)))
            case _ => false
  {
    RunKeepsInv(states, steps, i);
    var s := states[i];
    assert s.cache.attempt == |s.outcomes| % EPOCHS && s.phases[c].request.seen == |s.outcomes|;
    assert states[i + 1] == Apply(s, steps[i]);
    hide Inv, IsRun, Apply;
    PublishAnswersIn(s, c, now);
  }

  lemma PublishAnswersIn(s: State, c: CallerId, now: int)
    requires Enabled(s, Publish(c, now)) && s.cache.attempt == |s.outcomes| % EPOCHS
    ensures var (s', request, n) := (Apply(s, Publish(c, now)), s.phases[c].request, |s.outcomes|);
            var attempt := (n + 1) % EPOCHS;
            match (request, s.phases[c].fetched)
            case (Rekey(_, seen), Failed(message)) => Answers(s, s', c, ClientAnswer(seen, n + 1, Err(message)))
            case (Rekey(snapshot, seen), Rekeyed(keys)) =>
              Answers(s, s', c, ClientAnswer(seen, n + 1, Ok(snapshot.cached.metadata.(keys := keys))))
            case (Discover(_, seen), Discovered(metadata)) =>
              Answers(s, s', c,
                      MetadataAnswer(seen, n + 1, now, Ok(Snapshot(CachedMetadata(metadata, now), attempt))))
            case (Discover(_, seen), Failed(message)) =>
              Answers(s, s', c,
                      MetadataAnswer(seen, n + 1, now,
                        if s.cache.cached.Some? then Ok(Snapshot(s.cache.cached.value, attempt)) else Err(message)))
            case _ => false
  {
    var n := |s.outcomes|;
    assert (n % EPOCHS + 1) % EPOCHS == (n + 1) % EPOCHS;
  }

  /** No other step answers anyone. */
  lemma OtherStepsAnswerNobody(states: seq<State>, steps: seq<Step>, i: nat)
    requires IsRun(states, steps) && i < |steps|
    requires !steps[i].StartMetadata? && !steps[i].Recheck? && !steps[i].Publish?
    ensures states[i + 1].answers == states[i].answers
  {
  }

  ghost predicate IsClientError(a: Answer) {
    a.ClientAnswer? && a.client.Err?
  }

  ghost function ClientErrors(answers: seq<Answer>): nat {
    if answers == [] then 0
    else ClientErrors(answers[..|answers| - 1]) + if IsClientError(answers[|answers| - 1]) then 1 else 0
  }

  /** Step i publishes the failure of a key refresh. */
  ghost predicate FailsRefresh(s: State, step: Step) {
    && step.Publish? && step.c in s.phases && s.phases[step.c].Writing?
    && s.phases[step.c].request.Rekey? && s.phases[step.c].fetched.Failed?
  }

  ghost function FailedRefreshes(states: seq<State>, steps: seq<Step>, n: nat): nat
    requires n <= |steps| < |states|
  {
    if n == 0 then 0
    else FailedRefreshes(states, steps, n - 1) + if FailsRefresh(states[n - 1], steps[n - 1]) then 1 else 0
  }

  lemma ClientErrorsSnoc(answers: seq<Answer>, a: Answer)
    ensures ClientErrors(answers + [a]) == ClientErrors(answers) + if IsClientError(a) then 1 else 0
  {
    assert (answers + [a])[..|answers|] == answers;
  }

  lemma StepErrors(states: seq<State>, steps: seq<Step>, i: nat)
    requires IsRun(states, steps) && i < |steps|
    ensures ClientErrors(states[i + 1].answers)
            == ClientErrors(states[i].answers) + if FailsRefresh(states[i], steps[i]) then 1 else 0
  {
    var (s, s') := (states[i], states[i + 1]);
    assert Enabled(s, steps[i]);
    match steps[i] {
      case StartMetadata(c, now) => WarmReadersNeverWait(states, steps, i, c, now);
      case Recheck(c, now) => RecheckAnswers(states, steps, i, c, now);
      case Publish(c, now) => PublishAnswers(states, steps, i, c, now);
      case _ => OtherStepsAnswerNobody(states, steps, i);
    }
    hide IsRun, Apply, ClientErrors;
    if s'.answers != s.answers {
      ClientErrorsSnoc(s.answers, s'.answers[|s.answers|]);
    }
  }

  /** Each failed key refresh gives exactly one error, to the caller whose fetch failed. */
  lemma {:induction false} OneErrorForEachFailedRefresh(states: seq<State>, steps: seq<Step>, n: nat)
    requires IsRun(states, steps) && n <= |steps|
    ensures ClientErrors(states[n].answers) == FailedRefreshes(states, steps, n)
  {
    if n > 0 {
      OneErrorForEachFailedRefresh(states, steps, n - 1);
      StepErrors(states, steps, n - 1);
      hide FailsRefresh, IsTrace;
    }
  }

  /** A cancelled or finished holder never leaves the gate taken: some suspended call can move. */
  lemma NeverStuck(states: seq<State>, steps: seq<Step>, i: nat)
    requires IsRun(states, steps) && i < |states| && states[i].phases != map[]
    ensures exists step :: Enabled(states[i], step) && !step.Cancel? && !step.StartMetadata? && !step.StartRefresh?
  {
    RunKeepsInv(states, steps, i);
    var s := states[i];
    if s.gate.Some? {
      var c := s.gate.value;
      match s.phases[c] {
        case Holding(_) => assert Enabled(s, Recheck(c, s.clock));
        case Fetching(_) => assert Enabled(s, FetchReturns(c, Failed("")));
        case Writing(_, _) => assert Enabled(s, Publish(c, s.clock));
      }
    } else {
      var c :| c in s.phases;
      assert Enabled(s, TakeGate(c));
    }
  }

  // ---------- the counter's width ----------

  /** Under the gate, a caller fetches again exactly when the number of outcomes published since
      it looked is a multiple of 2^64: with NoLap, exactly when nothing was published. */
  lemma RefetchIffWholeLaps(s: State, c: CallerId, now: int)
    requires s.cache == Reference(s.outcomes) && Enabled(s, Recheck(c, now))
    requires s.phases[c].request.Rekey? && RequestReflectsLog(s.phases[c].request, s.outcomes)
    ensures Apply(s, Recheck(c, now)).phases == s.phases[c := Fetching(s.phases[c].request)]
            <==> (|s.outcomes| - s.phases[c].request.seen) % EPOCHS == 0
  {
    var request := s.phases[c].request;
    var n, seen := |s.outcomes|, request.seen;
    assert (n - seen) % EPOCHS == 0 <==> n % EPOCHS == seen % EPOCHS by {
      if n % EPOCHS == seen % EPOCHS {
        assert n - seen == EPOCHS * (n / EPOCHS - seen / EPOCHS);
      }
      if (n - seen) % EPOCHS == 0 {
        assert n == seen + EPOCHS * ((n - seen) / EPOCHS);
      }
    }
    if !MustFetch(s, request, now) {
      assert c !in Apply(s, Recheck(c, now)).phases;
    }
  }

  /** What NoLap excludes: a caller exactly one lap behind a newer discovery fetches keys, and its
      publication puts the older endpoints and fetch time back in place of the newer ones. */
  lemma LapOverwritesNewerData(s: State, c: CallerId, now: int, keys: Keys)
    requires s.cache == Reference(s.outcomes) && LogOk(s.outcomes) && Enabled(s, Recheck(c, now))
    requires s.phases[c].request.Rekey? && RequestReflectsLog(s.phases[c].request, s.outcomes)
    requires |s.outcomes| == s.phases[c].request.seen + EPOCHS
    requires LastDiscovery(s.outcomes) != LastDiscovery(s.outcomes[..s.phases[c].request.seen])
    ensures var s1 := Apply(s, Recheck(c, now));
            && Enabled(s1, FetchReturns(c, Rekeyed(keys)))
            && var s2 := Apply(s1, FetchReturns(c, Rekeyed(keys)));
            && s2.cache == s.cache && Enabled(s2, Publish(c, now))
            && var s3 := Apply(s2, Publish(c, now));
            && s.cache.cached.Some? && s3.cache.cached.Some?
            && var (before, after) := (s.cache.cached.value, s3.cache.cached.value);
            && LastDiscovery(s.outcomes) == Some((before.metadata.endpoints, before.fetchedAt))
            && LastDiscovery(s.outcomes[..s.phases[c].request.seen])
               == Some((after.metadata.endpoints, after.fetchedAt))
            && (after.metadata.endpoints, after.fetchedAt) != (before.metadata.endpoints, before.fetchedAt)
  {
    var seen, n := s.phases[c].request.seen, |s.outcomes|;
    assert (seen + EPOCHS) % EPOCHS == seen % EPOCHS;
    assert s.outcomes[..n] == s.outcomes;
    DiscoveryPersists(s.outcomes, seen, n);
  }

  // ---------- such a run exists ----------

  ghost predicate Settled(s: State, d: CallerId) {
    s.gate == None && d !in s.phases && s.cache == Reference(s.outcomes) && LogOk(s.outcomes)
  }

  /** Caller d finds the cache stale, discovers `metadata` and publishes it; nobody else moves. */
  ghost predicate Discovery(s: State, s': State, d: CallerId, metadata: Metadata) {
    && Settled(s', d)
    && s'.phases == s.phases && s.issued <= s'.issued
    && |s'.outcomes| == |s.outcomes| + 1 && s.outcomes <= s'.outcomes
    && s'.cache.cached.Some? && s'.cache.cached.value.metadata == metadata
    && (s.cache.cached.Some? ==> s.cache.cached.value.fetchedAt < s'.cache.cached.value.fetchedAt)
    && Issued(Snapshot(s'.cache.cached.value, s'.cache.attempt), |s'.outcomes|) in s'.issued
  }

  lemma DiscoverySteps(s: State, d: CallerId, metadata: Metadata, now: int)
    requires Settled(s, d) && s.clock <= now && !Fresh(s.cache, now)
    ensures Enabled(s, StartMetadata(d, now))
    ensures var s1 := Apply(s, StartMetadata(d, now));
            && Enabled(s1, TakeGate(d))
            && var s2 := Apply(s1, TakeGate(d));
            && Enabled(s2, Recheck(d, now))
            && var s3 := Apply(s2, Recheck(d, now));
            && Enabled(s3, FetchReturns(d, Discovered(metadata)))
            && var s4 := Apply(s3, FetchReturns(d, Discovered(metadata)));
            && Enabled(s4, Publish(d, now))
            && Discovery(s, Apply(s4, Publish(d, now)), d, metadata)
  {
    var request := Discover(s.cache, |s.outcomes|);
    assert s.outcomes[..|s.outcomes|] == s.outcomes;
    ReferenceSnoc(s.outcomes, d, request, Discovered(metadata), now);
    hide LogOk, Reference;
    var s4 := Apply(Apply(Apply(Apply(s, StartMetadata(d, now)), TakeGate(d)), Recheck(d, now)),
                    FetchReturns(d, Discovered(metadata)));
    assert s4.phases == s.phases[d := Writing(request, Discovered(metadata))];
    assert s4.phases - {d} == s.phases;
  }

  /** A run goes on with any step its last state enables. */
  lemma ExtendTrace(states: seq<State>, steps: seq<Step>, step: Step) returns (states': seq<State>, steps': seq<Step>)
    requires IsTrace(states, steps) && Enabled(states[|steps|], step)
    ensures IsTrace(states', steps') && |states'| == |steps'| + 1 == |steps| + 2 == |states| + 1
    ensures states'[|steps'|] == Apply(states[|steps|], step) && states'[|steps|] == states[|steps|]
  {
    hide Enabled, Apply;
    states', steps' := states + [Apply(states[|steps|], step)], steps + [step];
  }

  lemma DiscoverOnce(states: seq<State>, steps: seq<Step>, d: CallerId, metadata: Metadata)
    returns (states': seq<State>, steps': seq<Step>)
    requires IsTrace(states, steps) && Settled(states[|steps|], d)
    ensures IsTrace(states', steps') && Discovery(states[|steps|], states'[|steps'|], d, metadata)
  {
    var s := states[|steps|];
    var stale := if s.cache.cached.Some? then s.cache.cached.value.fetchedAt + METADATA_CACHE_TTL + 1 else s.clock;
    var now := if s.clock <= stale then stale else s.clock;
    DiscoverySteps(s, d, metadata, now);
    hide Enabled, Apply, Discovery, Settled;
    states', steps' := ExtendTrace(states, steps, StartMetadata(d, now));
    hide IsTrace;
    states', steps' := ExtendTrace(states', steps', TakeGate(d));
    states', steps' := ExtendTrace(states', steps', Recheck(d, now));
    states', steps' := ExtendTrace(states', steps', FetchReturns(d, Discovered(metadata)));
    states', steps' := ExtendTrace(states', steps', Publish(d, now));
  }

  /** n discoveries in a row, while everyone else stays suspended. */
  lemma {:induction false} DiscoverMany(states: seq<State>, steps: seq<Step>, d: CallerId, metadata: Metadata, n: nat)
    returns (states': seq<State>, steps': seq<Step>)
    requires IsTrace(states, steps) && Settled(states[|steps|], d) && states[|steps|].cache.cached.Some?
    ensures IsTrace(states', steps')
    ensures var (s, s') := (states[|steps|], states'[|steps'|]);
            && Settled(s', d) && s'.phases == s.phases
            && |s'.outcomes| == |s.outcomes| + n && s.outcomes <= s'.outcomes
            && s'.cache.cached.Some?
            && s.cache.cached.value.fetchedAt <= s'.cache.cached.value.fetchedAt
            && (n > 0 ==>
                  && s'.cache.cached.value.metadata == metadata
                  && s.cache.cached.value.fetchedAt < s'.cache.cached.value.fetchedAt)
    decreases n
  {
    hide IsTrace, Settled;
    states', steps' := states, steps;
    if n > 0 {
      states', steps' := DiscoverMany(states, steps, d, metadata, n - 1);
      states', steps' := DiscoverOnce(states', steps', d, metadata);
    }
  }

  /** The endpoints change and the cache is older than it was. */
  ghost predicate GoesBack(before: State, after: State) {
    && before.cache.cached.Some? && after.cache.cached.Some?
    && before.cache.cached.value.metadata.endpoints != after.cache.cached.value.metadata.endpoints
    && after.cache.cached.value.fetchedAt < before.cache.cached.value.fetchedAt
  }

  /** A waiter one lap behind, at a free gate. */
  ghost predicate OneLapBehind(s: State, w: CallerId, snapshot: Snapshot) {
    && s.gate == None && w in s.phases && s.phases[w] == Waiting(Rekey(snapshot, 1))
    && s.cache == Reference(s.outcomes) && LogOk(s.outcomes)
    && |s.outcomes| == 1 + EPOCHS && ReflectsLog(snapshot, 1, s.outcomes)
    && s.cache.cached.Some?
    && s.cache.cached.value.metadata.endpoints != snapshot.cached.metadata.endpoints
    && snapshot.cached.fetchedAt < s.cache.cached.value.fetchedAt
  }

  lemma LapSteps(s: State, w: CallerId, snapshot: Snapshot, keys: Keys)
    requires OneLapBehind(s, w, snapshot)
    ensures Enabled(s, TakeGate(w))
    ensures var s1 := Apply(s, TakeGate(w));
            && Enabled(s1, Recheck(w, s.clock))
            && var s2 := Apply(s1, Recheck(w, s.clock));
            && Enabled(s2, FetchReturns(w, Rekeyed(keys)))
            && var s3 := Apply(s2, FetchReturns(w, Rekeyed(keys)));
            && Enabled(s3, Publish(w, s.clock))
            && GoesBack(s3, Apply(s3, Publish(w, s.clock)))
  {
    hide LastKeys, LogOk;
    LapOverwritesNewerData(Apply(s, TakeGate(w)), w, s.clock, keys);
  }

  lemma ReflectsLonger(log: seq<Outcome>, log': seq<Outcome>, snapshot: Snapshot, seen: nat)
    requires ReflectsLog(snapshot, seen, log) && log <= log'
    ensures ReflectsLog(snapshot, seen, log')
  {
    assert log'[..seen] == log[..seen];
  }

  lemma FirstSnapshotReflects(s: State)
    requires s.cache == Reference(s.outcomes) && |s.outcomes| == 1 && s.cache.cached.Some?
    ensures ReflectsLog(Snapshot(s.cache.cached.value, s.cache.attempt), 1, s.outcomes)
  {
    assert s.outcomes[..1] == s.outcomes;
  }

  /** One call discovers, another asks for new keys and waits at the gate; 2^64 discoveries of
      other endpoints are published. */
  lemma LapTrace(d: CallerId, w: CallerId)
    returns (states: seq<State>, steps: seq<Step>, snapshot: Snapshot)
    requires d != w
    ensures IsTrace(states, steps) && OneLapBehind(states[|steps|], w, snapshot)
  {
    var first, second := Metadata(Endpoints(1), Keys(1)), Metadata(Endpoints(2), Keys(2));
    assert IsTrace([INIT], []) && Settled(INIT, d);
    states, steps := DiscoverOnce([INIT], [], d, first);
    var s := states[|steps|];
    snapshot := Snapshot(s.cache.cached.value, s.cache.attempt);
    FirstSnapshotReflects(s);
    hide Reference, LogOk;
    var issued := Issued(snapshot, 1);
    states, steps := ExtendTrace(states, steps, StartRefresh(w, issued));
    var waiting := states[|steps|];
    assert waiting.phases == map[w := Waiting(Rekey(snapshot, 1))];
    states, steps := DiscoverMany(states, steps, d, second, EPOCHS);
    ReflectsLonger(waiting.outcomes, states[|steps|].outcomes, snapshot, 1);
  }

  /** There is a run in which that happens: the waiter gets the gate a lap later, and its
      publication brings the first endpoints back. */
  lemma LapIsReachable()
    ensures exists states, steps :: IsTrace(states, steps) && steps != []
                                    && GoesBack(states[|steps| - 1], states[|steps|])
  {
    var states, steps, snapshot := LapTrace(0, 1);
    var s := states[|steps|];
    var now := s.clock;
    LapSteps(s, 1, snapshot, Keys(3));
    hide Enabled, Apply, OneLapBehind, GoesBack;
    states, steps := ExtendTrace(states, steps, TakeGate(1));
    hide IsTrace;
    states, steps := ExtendTrace(states, steps, Recheck(1, now));
    states, steps := ExtendTrace(states, steps, FetchReturns(1, Rekeyed(Keys(3))));
    states, steps := ExtendTrace(states, steps, Publish(1, now));
    assert GoesBack(states[|steps| - 1], states[|steps|]);
  }

  // ---------- the same steps on fields ----------

  /** The provider's shared fields; `View` is the state the steps above speak of. */
  class OidcProvider {
    // the metadata cache, behind the read-write lock
    var cached: Option<CachedMetadata>
    var attempt: nat
    var failure: Option<string>
    // the refresh mutex, and the locals of suspended calls
    var gate: Option<CallerId>
    var phases: map<CallerId, Phase>
    // what has happened so far, for the statements about whole runs
    var clock: int
    var outcomes: seq<Outcome>
    var issued: set<Issued>
    var answers: seq<Answer>

    function View(): State
      reads this
    {
      State(MetadataCache(cached, attempt, failure), gate, phases, clock, outcomes, issued, answers)
    }

    constructor ()
      ensures View() == INIT
    {
      cached, attempt, failure := None, 0, None;
      gate, phases := None, map[];
      clock, outcomes, issued, answers := 0, [], {}, [];
    }

    /** The future is dropped: its locals go, and the gate guard with them. */
    method Release(c: CallerId)
      modifies this`phases, this`gate
      ensures View() == Leave(old(View()), c)
    {
      phases := phases - {c};
      if gate == Some(c) {
        gate := None;
      }
    }

    method ReturnSnapshot(c: CallerId, seen: nat, now: int) returns (result: Result<Snapshot, string>)
      modifies this`phases, this`gate, this`clock, this`issued, this`answers
      ensures result == TakeSnapshot(old(View()).cache)
      ensures View() == AnswerMetadata(old(View()), c, seen, now, result)
    {
      result := TakeSnapshot(MetadataCache(cached, attempt, failure));
      Release(c);
      clock := now;
      if result.Ok? {
        issued := issued + {Issued(result.value, |outcomes|)};
      }
      answers := answers + [MetadataAnswer(seen, |outcomes|, now, result)];
    }

    method ReturnClient(c: CallerId, seen: nat, now: int, result: Result<Metadata, string>)
      modifies this`phases, this`gate, this`clock, this`answers
      ensures View() == AnswerClient(old(View()), c, seen, now, result)
    {
      Release(c);
      clock := now;
      answers := answers + [ClientAnswer(seen, |outcomes|, result)];
    }

    method MetadataStart(c: CallerId, now: int)
      requires Enabled(View(), StartMetadata(c, now))
      modifies this
      ensures View() == Apply(old(View()), StartMetadata(c, now))
    {
      var observed := MetadataCache(cached, attempt, failure);
      if observed.cached.Some? && now - observed.cached.value.fetchedAt <= METADATA_CACHE_TTL {
        var _ := ReturnSnapshot(c, |outcomes|, now);
      } else {
        phases := phases[c := Waiting(Discover(observed, |outcomes|))];
        clock := now;
      }
    }

    method RefreshJwksStart(c: CallerId, from: Issued)
      requires Enabled(View(), StartRefresh(c, from))
      modifies this`phases
      ensures View() == Apply(old(View()), StartRefresh(c, from))
    {
      phases := phases[c := Waiting(Rekey(from.snapshot, from.seen))];
    }

    method LockRefresh(c: CallerId)
      requires Enabled(View(), TakeGate(c))
      modifies this`gate, this`phases
      ensures View() == Apply(old(View()), TakeGate(c))
    {
      gate := Some(c);
      phases := phases[c := Holding(phases[c].request)];
    }

    method RecheckCache(c: CallerId, now: int)
      requires Enabled(View(), Recheck(c, now))
      modifies this
      ensures View() == Apply(old(View()), Recheck(c, now))
    {
      var request := phases[c].request;
      match request {
        case Discover(observed, seen) =>
          if attempt != observed.attempt
          || (cached.Some? && now - cached.value.fetchedAt <= METADATA_CACHE_TTL) {
            var _ := ReturnSnapshot(c, seen, now);
            return;
          }
        case Rekey(snapshot, seen) =>
          if attempt != snapshot.attempt {
            // Someone published meanwhile: answer from what is cached now, whatever the last outcome was.
            ReturnClient(c, seen, now, ClientOf(TakeSnapshot(MetadataCache(cached, attempt, failure))));
            return;
          }
      }
      phases := phases[c := Fetching(request)];
      clock := now;
    }

    method FetchReturned(c: CallerId, fetched: Fetched)
      requires Enabled(View(), FetchReturns(c, fetched))
      modifies this`phases
      ensures View() == Apply(old(View()), FetchReturns(c, fetched))
    {
      phases := phases[c := Writing(phases[c].request, fetched)];
    }

    method PublishOutcome(c: CallerId, now: int)
      requires Enabled(View(), Publish(c, now))
      modifies this
      ensures View() == Apply(old(View()), Publish(c, now))
    {
      var Writing(request, fetched) := phases[c];
      attempt := (attempt + 1) % EPOCHS;
      match fetched {
        case Discovered(metadata) =>
          cached := Some(CachedMetadata(metadata, now));
          failure := None;
        case Rekeyed(keys) =>
          // The discovery keeps its age.
          var base := request.snapshot.cached;
          cached := Some(CachedMetadata(base.metadata.(keys := keys), base.fetchedAt));
          failure := None;
        case Failed(message) =>
          failure := Some(message);
      }
      outcomes := outcomes + [Outcome(c, request.seen, fetched, now)];
      match request {
        case Discover(_, seen) =>
          // An error only when no earlier discovery is cached.
          var _ := ReturnSnapshot(c, seen, now);
        case Rekey(_, seen) =>
          var result := if fetched.Failed? then Err(fetched.message)
                        else ClientOf(TakeSnapshot(MetadataCache(cached, attempt, failure)));
          ReturnClient(c, seen, now, result);
      }
    }

    method Drop(c: CallerId)
      requires Enabled(View(), Cancel(c))
      modifies this`phases, this`gate
      ensures View() == Apply(old(View()), Cancel(c))
    {
      Release(c);
    }
  }
}
