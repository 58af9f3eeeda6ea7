/** The way to a sender's key: the relay's keystore, and behind it the resolver's
    route. Whatever their code does is a step of the machine of Caches, so the
    keys it hands out are as old as those of a run. Source:
    packages/relay/src/keystore.ts. */
module KeyLookup {
  import opened Basics
  import opened Resolver
  import opened Caches

  datatype KeystoreEntry = KeystoreEntry(signingKey: string, encryptionKey: string, fetchedAt: int)

  /** The relay's Keystore; each lookup is two pieces around the request. */
  class Keystore {
    const ttlMs: nat
    var cache: map<string, KeystoreEntry>
    ghost var model: map<string, KeyEntry>

    ghost predicate Valid()
      reads this
    {
      && cache.Keys == model.Keys
      && forall ref :: ref in cache ==>
           cache[ref] == KeystoreEntry(model[ref].document.signingKey, model[ref].document.encryptionKey,
                                       model[ref].fetchedAt)
    }

    constructor (ttlMs: nat)
      ensures Valid() && this.ttlMs == ttlMs && model == map[]
    {
      this.ttlMs := ttlMs;
      cache, model := map[], map[];
    }

    /** getSigningPublicKey up to its await: the cached key, or None to go and
        ask. */
    method Begin(ref: string, now: int) returns (key: Option<string>)
      requires Valid()
      ensures key.Some? <==> Live(model, ref, ttlMs, now)
      ensures key.Some? ==> key.value == model[ref].document.signingKey
    {
      if ref in cache && now - cache[ref].fetchedAt < ttlMs {
        return Some(cache[ref].signingKey);
      }
      return None;
    }

    /** From the await on: the answer is stored whatever is there by now. */
    method Finish(ref: string, document: SiiDocument, now: int, ghost readAt: int) returns (key: string)
      requires Valid()
      modifies this
      ensures Valid() && key == document.signingKey
      ensures model == old(model)[ref := KeyEntry(document, now, readAt)]
    {
      cache := cache[ref := KeystoreEntry(document.signingKey, document.encryptionKey, now)];
      model := model[ref := KeyEntry(document, now, readAt)];
      return document.signingKey;
    }

    method InvalidateRef(ref: string)
      requires Valid()
      modifies this
      ensures Valid() && model == old(model) - {ref}
    {
      cache := cache - {ref};
      model := model - {ref};
    }
  }

  /** One relay's keystore, the resolver it asks, and the requests on their way.
      `run` is what has happened since both started. */
  class KeyPath {
    const keystore: Keystore
    const route: ResolveRoute
    ghost const registry: Registry
    ghost const timing: Timing
    ghost const start: int
    ghost var run: seq<Step>
    ghost var requests: map<nat, Request>
    ghost var uses: seq<Use>
    ghost var clock: int

    ghost function View(): State
      reads this, keystore, route
    {
      State(keystore.model, route.model, requests, uses, clock)
    }

    /** The objects are where the run has led. */
    ghost predicate Valid()
      reads this, keystore, route
    {
      && keystore.Valid() && route.Valid()
      && timing.relayTtl == keystore.ttlMs && timing.resolverTtl == route.ttlMs
      && Exec(timing, registry, start, run) == Some(View())
    }

    ghost predicate May(step: Step)
      reads this, keystore, route
    {
      Enabled(timing, registry, View(), step)
    }

    constructor (keystore: Keystore, route: ResolveRoute, ghost registry: Registry, ghost timing: Timing,
                 ghost start: int)
      requires keystore.Valid() && keystore.model == map[] && route.Valid() && route.model == map[]
      requires timing.relayTtl == keystore.ttlMs && timing.resolverTtl == route.ttlMs
      ensures Valid() && run == []
      ensures this.keystore == keystore && this.route == route && this.registry == registry
      ensures this.timing == timing && this.start == start
    {
      this.keystore, this.route := keystore, route;
      this.registry, this.timing, this.start := registry, timing, start;
      run, requests, uses, clock := [], map[], [], start;
    }

    /** The ghost state goes where the step leads, if the caches are there. */
    ghost method Note(before: State, step: Step)
      requires Exec(timing, registry, start, run) == Some(before) && Enabled(timing, registry, before, step)
      modifies this
      ensures run == old(run) + [step]
      ensures var after := Apply(timing, registry, before, step);
              requests == after.requests && uses == after.uses && clock == after.clock
      ensures Exec(timing, registry, start, run) == Some(Apply(timing, registry, before, step))
    {
      var after := Apply(timing, registry, before, step);
      ExecNext(timing, registry, start, run, step);
      run, requests, uses, clock := run + [step], after.requests, after.uses, after.clock;
    }

    /** The relay wants a key: it has it, or its request goes out. */
    method GetKey(ghost id: nat, ref: string, now: int) returns (key: Option<string>)
      requires Valid() && May(Step.RelayGet(id, ref, now))
      modifies this
      ensures Valid() && run == old(run) + [Step.RelayGet(id, ref, now)]
      ensures id in requests && if key.Some? then requests[id].Holding? && requests[id].document.signingKey == key.value
                                else requests[id] == Asking(ref, now)
    {
      key := keystore.Begin(ref, now);
      Note(View(), Step.RelayGet(id, ref, now));
    }

    /** A request reaches the resolver. An empty ref is refused. */
    method Resolve(ghost id: nat, ref: string, bypass: bool, now: int) returns (reply: Option<ResolveReply>)
      requires Valid() && May(Step.ResolverGet(id, bypass, now)) && requests[id].ref == ref
      modifies this
      ensures Valid()
      ensures run == old(run) + [if ref == "" then Step.Drop(id, now) else Step.ResolverGet(id, bypass, now)]
      ensures reply.Some? && reply.value.Resolved200? ==>
                id in requests && requests[id].Answered? && requests[id].document == reply.value.document
      ensures reply.None? ==> id in requests && requests[id].Looking?
    {
      reply := route.Begin(ref, bypass, now);
      if ref == "" {
        Note(View(), Step.Drop(id, now));
      } else {
        Note(View(), Step.ResolverGet(id, bypass, now));
      }
    }

    /** The registry's answer reaches the resolver: a document is cached, anything
        else comes to nothing. */
    method Answer(ghost id: nat, ref: string, answer: ChainAnswer, now: int) returns (reply: ResolveReply)
      requires Valid()
      requires if Lookup(route.config, ref, answer).Found?
               then May(Step.ResolverStore(id, now)) && requests[id].ref == ref
                    && requests[id].document == Lookup(route.config, ref, answer).document
               else May(Step.Drop(id, now))
      modifies this, route
      ensures Valid()
      ensures run == old(run) + [if Lookup(route.config, ref, answer).Found? then Step.ResolverStore(id, now)
                                 else Step.Drop(id, now)]
      ensures reply.Resolved200? <==> Lookup(route.config, ref, answer).Found?
      ensures reply.Resolved200? ==> reply.document == Lookup(route.config, ref, answer).document
    {
      ghost var before, found := View(), Lookup(route.config, ref, answer).Found?;
      reply := route.Finish(ref, answer, now, if found then requests[id].readAt else 0);
      Note(before, if found then Step.ResolverStore(id, now) else Step.Drop(id, now));
    }

    /** The resolver's answer reaches the relay. */
    method TakeKey(ghost id: nat, ref: string, document: SiiDocument, now: int) returns (key: string)
      requires Valid() && May(Step.RelayStore(id, now)) && requests[id].ref == ref && requests[id].document == document
      modifies this, keystore
      ensures Valid() && run == old(run) + [Step.RelayStore(id, now)]
      ensures id in requests && requests[id].Holding? && requests[id].document.signingKey == key
    {
      ghost var before := View();
      key := keystore.Finish(ref, document, now, requests[id].readAt);
      Note(before, Step.RelayStore(id, now));
    }

    method Forget(ref: string, now: int)
      requires Valid() && May(Step.Invalidate(ref, now))
      modifies this, keystore
      ensures Valid() && run == old(run) + [Step.Invalidate(ref, now)]
    {
      ghost var before := View();
      keystore.InvalidateRef(ref);
      Note(before, Step.Invalidate(ref, now));
    }

    /** What happens outside the two caches: another client's request, an answer
        of the registry, a request that comes to nothing, a signature check. */
    ghost method Elsewhere(step: Step)
      requires Valid() && May(step)
      requires step.ClientGet? || step.RegistryRead? || step.Drop? || step.Check?
      modifies this
      ensures Valid() && run == old(run) + [step]
    {
      Note(View(), step);
    }

    /** Every signature this relay has ever checked was checked with a key that the
        registry gave for that agent at most MaxAge before. */
    lemma KeysAreFresh(i: nat)
      requires Valid() && ValidTiming(timing) && i < |uses|
      ensures exists d :: registry(uses[i].readAt, uses[i].ref, d) && d.signingKey == uses[i].signingKey
      ensures uses[i].readAt <= uses[i].at <= uses[i].readAt + MaxAge(timing)
    {
      RunInv(timing, registry, start, run);
      assert UseOk(timing, registry, uses[i]);
    }
  }
}
