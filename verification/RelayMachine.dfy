/** The relay as a step machine. A handler awaits (key lookup, signature check)
    between its start and its commit, so other steps may run in between; what
    follows the last await is one atomic step. Every outcome an await can have
    is a step of its own, so the machine covers all interleavings.

    Sources: packages/relay/src/routes/push.ts, pickup.ts, ack.ts, eviction.ts
    and auth.ts. */
module RelayMachine {
  import opened Basics
  import opened RelayRepo
  import opened RelayEvents

  /** limits.* of packages/relay/src/config.ts. */
  datatype Config = Config(maxTtlSeconds: nat, nonceWindowSeconds: nat, clockSkewSeconds: nat)

  /** The schema in config.ts accepts positive integers only. */
  predicate ValidConfig(c: Config) {
    c.maxTtlSeconds >= 1 && c.nonceWindowSeconds >= 1 && c.clockSkewSeconds >= 1
  }

  /** A parsed SCUT-Signature header; ts is None when Date.parse gives NaN. A
      request whose header is missing or malformed has none at all. */
  datatype Header = Header(agentId: string, ts: Option<int>, nonce: string, signature: string)

  /** The ?since= query parameter: absent, unparseable, or milliseconds. */
  datatype Since = NoSince | BadSince | SinceMs(ms: int)

  /** A handler waiting on its key lookup and signature check. */
  datatype Job =
    | PushJob(envelope: Envelope)
    | PickupJob(agentId: string, nonce: string, ts: int, since: Since, checkedAt: int)
    | AckJob(agentId: string, nonce: string, ts: int, envelopeIds: seq<string>, checkedAt: int)

  /** A nonce claim that succeeded: an accepted header. */
  datatype Claim = Claim(agentId: string, nonce: string, ts: int, checkedAt: int, at: int)

  datatype State = State(
    table: Table,
    nonces: NonceTable,
    jobs: map<nat, Job>,
    log: seq<Event>,
    claims: seq<Claim>,
    clock: int,
    lastTick: int)

  datatype Step =
    | PushStart(job: nat, envelope: Envelope, now: int)
    | PickupStart(job: nat, forAgent: string, header: Option<Header>, since: Since, now: int)
    | AckStart(job: nat, header: Option<Header>, envelopeIds: seq<string>, now: int)
    | AuthFail(job: nat, now: int)
    | PushCommit(job: nat, now: int)
    | PickupCommit(job: nat, served: seq<Row>, now: int)
    | AckCommit(job: nat, hits: seq<string>, now: int)
    | EvictTick(evicted: seq<EvictedRow>, now: int)

  datatype Reply =
    | Silent
    | Accepted202(storedAt: int, envelopeId: string, idempotent: bool)
    | Conflict409(envelopeId: string)
    | BadRequest400
    | Unauthorized401
    | Envelopes200(envelopes: seq<Envelope>)
    | Dropped200(dropped: seq<string>)

  /** assertFreshTimestamp. */
  predicate Fresh(ts: Option<int>, skewSeconds: nat, now: int) {
    ts.Some? && -(skewSeconds * 1000) <= now - ts.value <= skewSeconds * 1000
  }

  /** What envelopeSchema demands of a pushed envelope. */
  predicate WellFormedEnvelope(e: Envelope) {
    && e.envelopeId != "" && e.from != "" && e.to != "" && e.signature != ""
    && e.ttlSeconds >= 1
  }

  /** parseSignatureHeader lets no empty field through. */
  predicate ParsedHeader(h: Option<Header>) {
    h.Some? ==> h.value.agentId != "" && h.value.nonce != "" && h.value.signature != ""
  }

  /** The header parses and its timestamp is fresh. */
  predicate FreshHeader(h: Option<Header>, skewSeconds: nat, now: int) {
    h.Some? && Fresh(h.value.ts, skewSeconds, now)
  }

  function Min(a: int, b: int): int {
    if a <= b then a else b
  }

  function SubmissionOf(c: Config, e: Envelope, now: int): Submission {
    Submission(e.envelopeId, e.to, e.from, e.signature, now + Min(e.ttlSeconds, c.maxTtlSeconds) * 1000, e)
  }

  function SinceValue(since: Since): int {
    if since.SinceMs? then since.ms else 0
  }

  predicate Claims(c: Config, s: State, job: Job, now: int)
    requires !job.PushJob?
  {
    Claimable(s.nonces, c.nonceWindowSeconds, job.nonce, now)
  }

  predicate Enabled(c: Config, s: State, step: Step) {
    match step
    case PushStart(job, e, _) => job !in s.jobs && WellFormedEnvelope(e)
    case PickupStart(job, _, h, _, _) => job !in s.jobs && ParsedHeader(h)
    case AckStart(job, h, ids, _) => job !in s.jobs && ParsedHeader(h) && |ids| >= 1 && "" !in ids
    case AuthFail(job, _) => job in s.jobs
    case PushCommit(job, _) => job in s.jobs && s.jobs[job].PushJob?
    case PickupCommit(job, served, now) =>
      && job in s.jobs && s.jobs[job].PickupJob?
      && (if Claims(c, s, s.jobs[job], now) && !s.jobs[job].since.BadSince?
          then Served(s.table, s.jobs[job].agentId, SinceValue(s.jobs[job].since), served)
          else served == [])
    case AckCommit(job, hits, now) =>
      && job in s.jobs && s.jobs[job].AckJob?
      && (if Claims(c, s, s.jobs[job], now)
          then Lists(hits, AckHits(s.table, s.jobs[job].agentId, s.jobs[job].envelopeIds))
          else hits == [])
    case EvictTick(evicted, now) => ListsExpired(s.table, now, evicted)
  }

  function ExpiredEvents(evicted: seq<EvictedRow>): seq<Event> {
    if |evicted| == 0 then []
    else ExpiredEvents(evicted[..|evicted| - 1])
         + [Expired(evicted[|evicted| - 1].envelopeId, evicted[|evicted| - 1].recipientId)]
  }

  /** tryClaim plus its trace in the history of accepted headers. */
  function WithClaim(c: Config, s: State, job: Job, now: int): State
    requires !job.PushJob?
  {
    s.(nonces := AfterClaim(s.nonces, c.nonceWindowSeconds, job.nonce, job.agentId, now),
       claims := if Claims(c, s, job, now)
                 then s.claims + [Claim(job.agentId, job.nonce, job.ts, job.checkedAt, now)]
                 else s.claims)
  }

  function AfterPush(c: Config, s: State, job: nat, now: int): State
    requires job in s.jobs && s.jobs[job].PushJob?
  {
    var sub := SubmissionOf(c, s.jobs[job].envelope, now);
    s.(clock := now,
       jobs := s.jobs - {job},
       table := AfterStore(s.table, sub, now),
       log := if StoreOutcome(s.table, sub, now).Stored?
              then s.log + [Received(sub.payload, now, sub.expiresAt)]
              else s.log)
  }

  function AfterPickup(c: Config, s: State, job: nat, now: int): State
    requires job in s.jobs && s.jobs[job].PickupJob?
  {
    WithClaim(c, s, s.jobs[job], now).(clock := now, jobs := s.jobs - {job})
  }

  function AfterAck(c: Config, s: State, job: nat, hits: seq<string>, now: int): State
    requires job in s.jobs && s.jobs[job].AckJob?
  {
    WithClaim(c, s, s.jobs[job], now).(
      clock := now,
      jobs := s.jobs - {job},
      table := s.table - Elems(hits),
      log := if |hits| > 0 then s.log + [Acked(hits, s.jobs[job].agentId)] else s.log)
  }

  function AfterTick(s: State, evicted: seq<EvictedRow>, now: int): State {
    s.(clock := now,
       lastTick := now,
       table := s.table - ExpiredIds(s.table, now),
       log := s.log + ExpiredEvents(evicted))
  }

  function Apply(c: Config, s: State, step: Step): State
    requires Enabled(c, s, step)
  {
    match step
    case PushStart(job, e, now) => s.(clock := now, jobs := s.jobs[job := PushJob(e)])
    case PickupStart(job, forAgent, h, since, now) =>
      if forAgent != "" && FreshHeader(h, c.clockSkewSeconds, now) && h.value.agentId == forAgent
      then s.(clock := now, jobs := s.jobs[job := PickupJob(forAgent, h.value.nonce, h.value.ts.value, since, now)])
      else s.(clock := now)
    case AckStart(job, h, ids, now) =>
      if FreshHeader(h, c.clockSkewSeconds, now)
      then s.(clock := now, jobs := s.jobs[job := AckJob(h.value.agentId, h.value.nonce, h.value.ts.value, ids, now)])
      else s.(clock := now)
    case AuthFail(job, now) => s.(clock := now, jobs := s.jobs - {job})
    case PushCommit(job, now) => AfterPush(c, s, job, now)
    case PickupCommit(job, _, now) => AfterPickup(c, s, job, now)
    case AckCommit(job, hits, now) => AfterAck(c, s, job, hits, now)
    case EvictTick(evicted, now) => AfterTick(s, evicted, now)
  }

  /** The HTTP answer given at a step, if any. */
  function ReplyTo(c: Config, s: State, step: Step): Reply
    requires Enabled(c, s, step)
  {
    match step
    case PushStart(_, _, _) => Silent
    case PickupStart(_, forAgent, h, _, now) =>
      if forAgent == "" then BadRequest400
      else if !FreshHeader(h, c.clockSkewSeconds, now) || h.value.agentId != forAgent then Unauthorized401
      else Silent
    case AckStart(_, h, _, now) => if FreshHeader(h, c.clockSkewSeconds, now) then Silent else Unauthorized401
    case AuthFail(_, _) => Unauthorized401
    case PushCommit(job, now) =>
      (match StoreOutcome(s.table, SubmissionOf(c, s.jobs[job].envelope, now), now)
       case Stored(at) => Accepted202(at, s.jobs[job].envelope.envelopeId, false)
       case Duplicate(at) => Accepted202(at, s.jobs[job].envelope.envelopeId, true)
       case Conflict(_) => Conflict409(s.jobs[job].envelope.envelopeId))
    case PickupCommit(job, served, now) =>
      if !Claims(c, s, s.jobs[job], now) then Unauthorized401
      else if s.jobs[job].since.BadSince? then BadRequest400
      else Envelopes200(Payloads(served))
    case AckCommit(job, hits, now) =>
      if !Claims(c, s, s.jobs[job], now) then Unauthorized401 else Dropped200(hits)
    case EvictTick(_, _) => Silent
  }

  function Payloads(rows: seq<Row>): seq<Envelope> {
    seq(|rows|, i requires 0 <= i < |rows| => rows[i].payload)
  }

  /** A relay that has just started on an empty database. */
  function Init(start: int): State {
    State(map[], map[], map[], [], [], start, start)
  }

  /** The state after a run, or None when some step was not possible. */
  function Exec(c: Config, start: int, steps: seq<Step>): Option<State> {
    if |steps| == 0 then Some(Init(start))
    else
      var before := Exec(c, start, steps[..|steps| - 1]);
      if before.Some? && Enabled(c, before.value, steps[|steps| - 1])
      then Some(Apply(c, before.value, steps[|steps| - 1]))
      else None
  }

  predicate IsRun(c: Config, start: int, steps: seq<Step>) {
    Exec(c, start, steps).Some?
  }

  function StateAt(c: Config, start: int, steps: seq<Step>, n: nat): State
    requires IsRun(c, start, steps) && n <= |steps|
  {
    PrefixIsRun(c, start, steps, n);
    Exec(c, start, steps[..n]).value
  }

  lemma {:induction false} PrefixIsRun(c: Config, start: int, steps: seq<Step>, n: nat)
    requires IsRun(c, start, steps) && n <= |steps|
    ensures IsRun(c, start, steps[..n])
    decreases |steps|
  {
    if n == |steps| {
      assert steps[..n] == steps;
    } else {
      var shorter := steps[..|steps| - 1];
      PrefixIsRun(c, start, shorter, n);
      assert shorter[..n] == steps[..n];
    }
  }

  lemma StepAt(c: Config, start: int, steps: seq<Step>, n: nat)
    requires IsRun(c, start, steps) && n < |steps|
    ensures Enabled(c, StateAt(c, start, steps, n), steps[n])
    ensures StateAt(c, start, steps, n + 1) == Apply(c, StateAt(c, start, steps, n), steps[n])
  {
    PrefixIsRun(c, start, steps, n);
    PrefixIsRun(c, start, steps, n + 1);
    assert steps[..n + 1][..n] == steps[..n];
  }
}
