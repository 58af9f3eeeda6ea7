/** The relay's handlers over its two tables and its event bus, each split at
    its awaits, and the proof that every piece is the step of RelayMachine that
    models it. */
module RelayServer {
  import opened Basics
  import opened RelayRepo
  import opened RelayEvents
  import opened RelayMachine

  class Relay {
    const config: Config
    const repo: EnvelopeRepo
    const nonces: NonceRepo
    const bus: RelayEventBus
    /** Handlers waiting on a key lookup or a signature check. */
    var jobs: map<nat, Job>
    ghost var claims: seq<Claim>
    ghost var clock: int
    ghost var lastTick: int

    ghost predicate Valid()
      reads this, repo, nonces, bus
    {
      && nonces.windowSeconds == config.nonceWindowSeconds
      && Keyed(repo.rows)
      && bus.Valid()
    }

    ghost function View(): State
      reads this, repo, nonces, bus
    {
      State(repo.rows, nonces.nonces, jobs, bus.log, claims, clock, lastTick)
    }

    constructor (config: Config, start: int)
      ensures Valid() && fresh(repo) && fresh(nonces) && fresh(bus)
      ensures this.config == config && View() == Init(start)
    {
      this.config := config;
      repo := new EnvelopeRepo();
      nonces := new NonceRepo(config.nonceWindowSeconds);
      bus := new RelayEventBus();
      jobs, claims, clock, lastTick := map[], [], start, start;
    }

    // ---- push.ts ----

    /** handlePush up to its first await. */
    method PushBegin(job: nat, envelope: Envelope, now: int)
      requires Valid() && Enabled(config, View(), PushStart(job, envelope, now))
      modifies this
      ensures Valid() && View() == Apply(config, old(View()), PushStart(job, envelope, now))
    {
      clock := now;
      jobs := jobs[job := PushJob(envelope)];
    }

    /** handlePush from its last await to its answer. */
    method PushFinish(job: nat, now: int) returns (reply: Reply)
      requires Valid() && Enabled(config, View(), PushCommit(job, now))
      modifies this, repo, bus
      ensures Valid() && View() == Apply(config, old(View()), PushCommit(job, now))
      ensures reply == ReplyTo(config, old(View()), PushCommit(job, now))
    {
      var envelope := jobs[job].envelope;
      jobs := jobs - {job};
      clock := now;
      var ttlSeconds :=
        if envelope.ttlSeconds < config.maxTtlSeconds then envelope.ttlSeconds else config.maxTtlSeconds;
      var expiresAt := now + ttlSeconds * 1000;
      var result := repo.TryStore(
        Submission(envelope.envelopeId, envelope.to, envelope.from, envelope.signature, expiresAt, envelope), now);
      if result.Conflict? {
        return Conflict409(envelope.envelopeId);
      }
      if result.Stored? {
        bus.Publish(Received(envelope, result.receivedAt, expiresAt));
      }
      return Accepted202(result.receivedAt, envelope.envelopeId, result.Duplicate?);
    }

    // ---- pickup.ts ----

    /** handlePickup up to its first await, or to its early answer. */
    method PickupBegin(job: nat, forAgent: string, header: Option<Header>, since: Since, now: int)
      returns (reply: Reply)
      requires Valid() && Enabled(config, View(), PickupStart(job, forAgent, header, since, now))
      modifies this
      ensures Valid() && View() == Apply(config, old(View()), PickupStart(job, forAgent, header, since, now))
      ensures reply == ReplyTo(config, old(View()), PickupStart(job, forAgent, header, since, now))
    {
      clock := now;
      if forAgent == "" {
        return BadRequest400;
      }
      if header.None? || header.value.agentId != forAgent {
        return Unauthorized401;
      }
      if !Fresh(header.value.ts, config.clockSkewSeconds, now) {
        return Unauthorized401;
      }
      jobs := jobs[job := PickupJob(forAgent, header.value.nonce, header.value.ts.value, since, now)];
      return Silent;
    }

    /** handlePickup from its last await to its answer. The nonce is spent
        before ?since= is looked at. */
    method PickupFinish(job: nat, now: int) returns (reply: Reply, served: seq<Row>)
      requires Valid() && job in jobs && jobs[job].PickupJob?
      modifies this, nonces
      ensures Valid() && Enabled(config, old(View()), PickupCommit(job, served, now))
      ensures View() == Apply(config, old(View()), PickupCommit(job, served, now))
      ensures reply == ReplyTo(config, old(View()), PickupCommit(job, served, now))
    {
      var waiting := jobs[job];
      served := [];
      jobs := jobs - {job};
      clock := now;
      var ok := nonces.TryClaim(waiting.nonce, waiting.agentId, now);
      if !ok {
        return Unauthorized401, served;
      }
      claims := claims + [Claim(waiting.agentId, waiting.nonce, waiting.ts, waiting.checkedAt, now)];
      if waiting.since.BadSince? {
        return BadRequest400, served;
      }
      served := repo.ForRecipientSince(waiting.agentId, if waiting.since.SinceMs? then waiting.since.ms else 0);
      return Envelopes200(Payloads(served)), served;
    }

    // ---- ack.ts ----

    method AckBegin(job: nat, header: Option<Header>, envelopeIds: seq<string>, now: int) returns (reply: Reply)
      requires Valid() && Enabled(config, View(), AckStart(job, header, envelopeIds, now))
      modifies this
      ensures Valid() && View() == Apply(config, old(View()), AckStart(job, header, envelopeIds, now))
      ensures reply == ReplyTo(config, old(View()), AckStart(job, header, envelopeIds, now))
    {
      clock := now;
      if header.None? || !Fresh(header.value.ts, config.clockSkewSeconds, now) {
        return Unauthorized401;
      }
      jobs := jobs[job := AckJob(header.value.agentId, header.value.nonce, header.value.ts.value, envelopeIds, now)];
      return Silent;
    }

    method AckFinish(job: nat, now: int) returns (reply: Reply, dropped: seq<string>)
      requires Valid() && job in jobs && jobs[job].AckJob?
      modifies this, repo, nonces, bus
      ensures Valid() && Enabled(config, old(View()), AckCommit(job, dropped, now))
      ensures View() == Apply(config, old(View()), AckCommit(job, dropped, now))
      ensures reply == ReplyTo(config, old(View()), AckCommit(job, dropped, now))
    {
      var waiting := jobs[job];
      dropped := [];
      jobs := jobs - {job};
      clock := now;
      var ok := nonces.TryClaim(waiting.nonce, waiting.agentId, now);
      if !ok {
        return Unauthorized401, dropped;
      }
      claims := claims + [Claim(waiting.agentId, waiting.nonce, waiting.ts, waiting.checkedAt, now)];
      dropped := repo.AckForRecipient(waiting.agentId, waiting.envelopeIds);
      if |dropped| > 0 {
        bus.Publish(Acked(dropped, waiting.agentId));
      }
      return Dropped200(dropped), dropped;
    }

    /** A key lookup that threw or a signature that did not verify. */
    method Reject(job: nat, now: int) returns (reply: Reply)
      requires Valid() && Enabled(config, View(), AuthFail(job, now))
      modifies this
      ensures Valid() && View() == Apply(config, old(View()), AuthFail(job, now))
      ensures reply == ReplyTo(config, old(View()), AuthFail(job, now))
    {
      clock := now;
      jobs := jobs - {job};
      return Unauthorized401;
    }

    // ---- eviction.ts ----

    method RunEviction(now: int) returns (evicted: seq<EvictedRow>)
      requires Valid()
      modifies this, repo, bus
      ensures Valid() && Enabled(config, old(View()), EvictTick(evicted, now))
      ensures View() == Apply(config, old(View()), EvictTick(evicted, now))
    {
      clock, lastTick := now, now;
      evicted := repo.EvictExpired(now);
      for i := 0 to |evicted|
        invariant bus.Valid() && Keyed(repo.rows)
        invariant clock == lastTick == now && jobs == old(jobs) && claims == old(claims)
        invariant bus.log == old(bus.log) + ExpiredEvents(evicted[..i])
        invariant repo.rows == old(repo.rows) - ExpiredIds(old(repo.rows), now)
      {
        assert evicted[..i + 1][..i] == evicted[..i];
        bus.Publish(Expired(evicted[i].envelopeId, evicted[i].recipientId));
      }
      assert evicted[..|evicted|] == evicted;
    }
  }
}
