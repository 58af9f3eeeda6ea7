/** How old can a signing key be when the relay checks a signature with it? Two
    caches in a row, any number of overlapping lookups, and slow answers that
    overwrite newer ones. Sources: packages/relay/src/keystore.ts and
    packages/resolver/src/routes/resolve.ts. */
module Caches {
  import opened Basics
  import opened Resolver

  /** Both time-to-lives, and how long it takes at most to answer a relay's
      request, to look a ref up in the registry, and to get from the key to the
      signature check, in milliseconds. */
  datatype Timing = Timing(relayTtl: nat, resolverTtl: nat, requestMs: nat, lookupMs: nat, checkMs: nat)

  /** The configuration schemas accept positive times-to-live only. */
  predicate ValidTiming(t: Timing) {
    t.relayTtl >= 1 && t.resolverTtl >= 1
  }

  /** A request on its way: at the resolver's door, waiting for the registry,
      read but not yet stored, or answered. `since` is when it was sent. Then the
      handler holds the key, since some moment, until it checks the signature. */
  datatype Request =
    | Asking(ref: string, since: int)
    | Looking(ref: string, since: int, begun: int)
    | Read(ref: string, since: int, begun: int, document: SiiDocument, readAt: int)
    | Answered(ref: string, since: int, document: SiiDocument, readAt: int)
    | Holding(ref: string, since: int, document: SiiDocument, readAt: int)

  /** The relay checked a signature with this key at this time. */
  datatype Use = Use(ref: string, signingKey: string, at: int, readAt: int)

  datatype State = State(
    relay: map<string, KeyEntry>,
    resolver: map<string, KeyEntry>,
    requests: map<nat, Request>,
    uses: seq<Use>,
    clock: int)

  datatype Step =
    | RelayGet(id: nat, ref: string, now: int)
    | ResolverGet(id: nat, bypass: bool, now: int)
    | RegistryRead(id: nat, document: SiiDocument, now: int)
    | ResolverStore(id: nat, now: int)
    | RelayStore(id: nat, now: int)
    | Check(id: nat, now: int)
    | ClientGet(id: nat, ref: string, now: int)
    | Drop(id: nat, now: int)
    | Invalidate(ref: string, now: int)

  /** What the registry may answer for a ref at a moment. */
  type Registry = (int, string, SiiDocument) -> bool

  predicate Live(cache: map<string, KeyEntry>, ref: string, ttl: nat, now: int) {
    ref in cache && now - cache[ref].fetchedAt < ttl
  }

  predicate Enabled(t: Timing, registry: Registry, s: State, step: Step) {
    && s.clock <= step.now
    && match step
       case RelayGet(id, _, _) => id !in s.requests
       case ClientGet(id, _, _) => id !in s.requests
       case ResolverGet(id, _, _) => id in s.requests && s.requests[id].Asking?
       case RegistryRead(id, d, now) =>
         id in s.requests && s.requests[id].Looking? && registry(now, s.requests[id].ref, d)
       case ResolverStore(id, now) =>
         id in s.requests && s.requests[id].Read? && now <= s.requests[id].begun + t.lookupMs
       case RelayStore(id, now) =>
         id in s.requests && s.requests[id].Answered? && now <= s.requests[id].since + t.requestMs
       case Check(id, now) =>
         id in s.requests && s.requests[id].Holding? && now <= s.requests[id].since + t.checkMs
       case Drop(id, _) => id in s.requests
       case Invalidate(_, _) => true
  }

  function Apply(t: Timing, registry: Registry, s: State, step: Step): State
    requires Enabled(t, registry, s, step)
  {
    var s1 := s.(clock := step.now);
    match step
    case RelayGet(id, ref, now) =>
      if Live(s.relay, ref, t.relayTtl, now)
      then s1.(requests := s.requests[id := Holding(ref, now, s.relay[ref].document, s.relay[ref].readAt)])
      else s1.(requests := s.requests[id := Asking(ref, now)])
    case ClientGet(id, ref, now) => s1.(requests := s.requests[id := Asking(ref, now)])
    case ResolverGet(id, bypass, now) =>
      var q := s.requests[id];
      if !bypass && Live(s.resolver, q.ref, t.resolverTtl, now)
      then
        var e := s.resolver[q.ref];
        s1.(requests := s.requests[id := Answered(q.ref, q.since, e.document, e.readAt)])
      else s1.(requests := s.requests[id := Looking(q.ref, q.since, now)])
    case RegistryRead(id, d, now) =>
      var q := s.requests[id];
      s1.(requests := s.requests[id := Read(q.ref, q.since, q.begun, d, now)])
    case ResolverStore(id, now) =>
      var q := s.requests[id];
      s1.(resolver := s.resolver[q.ref := KeyEntry(q.document, now, q.readAt)],
          requests := s.requests[id := Answered(q.ref, q.since, q.document, q.readAt)])
    case RelayStore(id, now) =>
      var q := s.requests[id];
      s1.(relay := s.relay[q.ref := KeyEntry(q.document, now, q.readAt)],
          requests := s.requests[id := Holding(q.ref, now, q.document, q.readAt)])
    case Check(id, now) =>
      var q := s.requests[id];
      s1.(requests := s.requests - {id},
          uses := s.uses + [Use(q.ref, q.document.signingKey, now, q.readAt)])
    case Drop(id, _) => s1.(requests := s.requests - {id})
    case Invalidate(ref, _) => s1.(relay := s.relay - {ref})
  }

  function Exec(t: Timing, registry: Registry, start: int, steps: seq<Step>): Option<State> {
    if |steps| == 0 then Some(State(map[], map[], map[], [], start))
    else
      var before := Exec(t, registry, start, steps[..|steps| - 1]);
      if before.Some? && Enabled(t, registry, before.value, steps[|steps| - 1])
      then Some(Apply(t, registry, before.value, steps[|steps| - 1]))
      else None
  }

  // ---- The bound ----

  /** The largest age a key can have when it is used. */
  function MaxAge(t: Timing): int {
    t.relayTtl - 1 + OldestEntry(t) + t.checkMs
  }

  /** The largest age of a key that the relay is about to store. */
  function OldestEntry(t: Timing): int {
    t.resolverTtl - 1 + t.requestMs + t.lookupMs
  }

  predicate RequestOk(t: Timing, registry: Registry, s: State, q: Request) {
    && q.since <= s.clock
    && (q.Looking? ==> q.since <= q.begun <= s.clock)
    && (q.Read? ==> q.since <= q.begun <= q.readAt <= s.clock && registry(q.readAt, q.ref, q.document))
    && (q.Answered? ==>
          && q.since - (t.resolverTtl - 1) - t.lookupMs <= q.readAt <= s.clock
          && registry(q.readAt, q.ref, q.document))
    && (q.Holding? ==>
          && q.since - (t.relayTtl - 1) - OldestEntry(t) <= q.readAt <= s.clock
          && registry(q.readAt, q.ref, q.document))
  }

  predicate ResolverEntryOk(t: Timing, registry: Registry, s: State, ref: string, e: KeyEntry) {
    e.fetchedAt - t.lookupMs <= e.readAt <= e.fetchedAt <= s.clock && registry(e.readAt, ref, e.document)
  }

  predicate RelayEntryOk(t: Timing, registry: Registry, s: State, ref: string, e: KeyEntry) {
    && e.fetchedAt - OldestEntry(t) <= e.readAt <= e.fetchedAt <= s.clock
    && registry(e.readAt, ref, e.document)
  }

  ghost predicate UseOk(t: Timing, registry: Registry, u: Use) {
    && u.readAt <= u.at <= u.readAt + MaxAge(t)
    && exists d :: registry(u.readAt, u.ref, d) && d.signingKey == u.signingKey
  }

  ghost predicate Inv(t: Timing, registry: Registry, s: State) {
    && (forall id :: id in s.requests ==> RequestOk(t, registry, s, s.requests[id]))
    && (forall ref :: ref in s.resolver ==> ResolverEntryOk(t, registry, s, ref, s.resolver[ref]))
    && (forall ref :: ref in s.relay ==> RelayEntryOk(t, registry, s, ref, s.relay[ref]))
    && (forall i :: 0 <= i < |s.uses| ==> UseOk(t, registry, s.uses[i]))
  }

  /** What was true of the parts stays true as the clock goes on. */
  lemma Later(t: Timing, registry: Registry, s: State, now: int)
    requires Inv(t, registry, s) && s.clock <= now
    ensures Inv(t, registry, s.(clock := now))
  {
    var s' := s.(clock := now);
    forall id | id in s.requests
      ensures RequestOk(t, registry, s', s.requests[id])
    {
      assert RequestOk(t, registry, s, s.requests[id]);
    }
    forall ref | ref in s.resolver
      ensures ResolverEntryOk(t, registry, s', ref, s.resolver[ref])
    {
      assert ResolverEntryOk(t, registry, s, ref, s.resolver[ref]);
    }
    forall ref | ref in s.relay
      ensures RelayEntryOk(t, registry, s', ref, s.relay[ref])
    {
      assert RelayEntryOk(t, registry, s, ref, s.relay[ref]);
    }
  }

  lemma WithRequest(t: Timing, registry: Registry, s: State, id: nat, q: Request)
    requires Inv(t, registry, s) && RequestOk(t, registry, s, q)
    ensures Inv(t, registry, s.(requests := s.requests[id := q]))
  {
    var s' := s.(requests := s.requests[id := q]);
    forall k | k in s'.requests
      ensures RequestOk(t, registry, s', s'.requests[k])
    {
      assert k != id ==> RequestOk(t, registry, s, s.requests[k]);
    }
    assert forall ref :: ref in s.resolver ==> ResolverEntryOk(t, registry, s', ref, s.resolver[ref]);
    assert forall ref :: ref in s.relay ==> RelayEntryOk(t, registry, s', ref, s.relay[ref]);
  }

  lemma WithUse(t: Timing, registry: Registry, s: State, u: Use)
    requires Inv(t, registry, s) && UseOk(t, registry, u)
    ensures Inv(t, registry, s.(uses := s.uses + [u]))
  {
    var s' := s.(uses := s.uses + [u]);
    assert forall k :: k in s.requests ==> RequestOk(t, registry, s', s.requests[k]);
    assert forall ref :: ref in s.resolver ==> ResolverEntryOk(t, registry, s', ref, s.resolver[ref]);
    assert forall ref :: ref in s.relay ==> RelayEntryOk(t, registry, s', ref, s.relay[ref]);
  }

  lemma WithResolverEntry(t: Timing, registry: Registry, s: State, ref: string, e: KeyEntry)
    requires Inv(t, registry, s) && ResolverEntryOk(t, registry, s, ref, e)
    ensures Inv(t, registry, s.(resolver := s.resolver[ref := e]))
  {
    var s' := s.(resolver := s.resolver[ref := e]);
    assert forall k :: k in s.requests ==> RequestOk(t, registry, s', s.requests[k]);
    assert forall r :: r in s'.resolver ==> ResolverEntryOk(t, registry, s', r, s'.resolver[r]);
    assert forall r :: r in s.relay ==> RelayEntryOk(t, registry, s', r, s.relay[r]);
  }

  lemma WithRelayEntry(t: Timing, registry: Registry, s: State, ref: string, e: KeyEntry)
    requires Inv(t, registry, s) && RelayEntryOk(t, registry, s, ref, e)
    ensures Inv(t, registry, s.(relay := s.relay[ref := e]))
  {
    var s' := s.(relay := s.relay[ref := e]);
    assert forall k :: k in s.requests ==> RequestOk(t, registry, s', s.requests[k]);
    assert forall r :: r in s.resolver ==> ResolverEntryOk(t, registry, s', r, s.resolver[r]);
    assert forall r :: r in s'.relay ==> RelayEntryOk(t, registry, s', r, s'.relay[r]);
  }

  lemma Without(t: Timing, registry: Registry, s: State, id: nat, ref: string)
    requires Inv(t, registry, s)
    ensures Inv(t, registry, s.(requests := s.requests - {id})) && Inv(t, registry, s.(relay := s.relay - {ref}))
  {
    var s1, s2 := s.(requests := s.requests - {id}), s.(relay := s.relay - {ref});
    forall k | k in s.requests
      ensures RequestOk(t, registry, s1, s.requests[k]) && RequestOk(t, registry, s2, s.requests[k])
    {
      assert RequestOk(t, registry, s, s.requests[k]);
    }
    forall r | r in s.resolver
      ensures ResolverEntryOk(t, registry, s1, r, s.resolver[r]) && ResolverEntryOk(t, registry, s2, r, s.resolver[r])
    {
      assert ResolverEntryOk(t, registry, s, r, s.resolver[r]);
    }
    forall r | r in s.relay
      ensures RelayEntryOk(t, registry, s1, r, s.relay[r]) && RelayEntryOk(t, registry, s2, r, s.relay[r])
    {
      assert RelayEntryOk(t, registry, s, r, s.relay[r]);
    }
  }

  lemma RelayStoreInv(t: Timing, registry: Registry, s: State, id: nat, now: int)
    requires ValidTiming(t) && Inv(t, registry, s.(clock := now)) && Enabled(t, registry, s, RelayStore(id, now))
    ensures Inv(t, registry, Apply(t, registry, s, RelayStore(id, now)))
  {
    var q, s1 := s.requests[id], s.(clock := now);
    assert RequestOk(t, registry, s1, q);
    var e := KeyEntry(q.document, now, q.readAt);
    WithRelayEntry(t, registry, s1, q.ref, e);
    WithRequest(t, registry, s1.(relay := s1.relay[q.ref := e]), id, Holding(q.ref, now, q.document, q.readAt));
  }

  lemma CheckInv(t: Timing, registry: Registry, s: State, id: nat, now: int)
    requires ValidTiming(t) && Inv(t, registry, s.(clock := now)) && Enabled(t, registry, s, Check(id, now))
    ensures Inv(t, registry, Apply(t, registry, s, Check(id, now)))
  {
    var q, s1 := s.requests[id], s.(clock := now);
    assert RequestOk(t, registry, s1, q);
    Without(t, registry, s1, id, q.ref);
    WithUse(t, registry, s1.(requests := s1.requests - {id}), Use(q.ref, q.document.signingKey, now, q.readAt));
  }

  lemma ResolverStoreInv(t: Timing, registry: Registry, s: State, id: nat, now: int)
    requires ValidTiming(t) && Inv(t, registry, s.(clock := now)) && Enabled(t, registry, s, ResolverStore(id, now))
    ensures Inv(t, registry, Apply(t, registry, s, ResolverStore(id, now)))
  {
    var q, s1 := s.requests[id], s.(clock := now);
    assert RequestOk(t, registry, s1, q);
    var e := KeyEntry(q.document, now, q.readAt);
    WithResolverEntry(t, registry, s1, q.ref, e);
    WithRequest(t, registry, s1.(resolver := s1.resolver[q.ref := e]), id,
                Answered(q.ref, q.since, q.document, q.readAt));
  }

  lemma ResolverGetInv(t: Timing, registry: Registry, s: State, id: nat, bypass: bool, now: int)
    requires ValidTiming(t) && Inv(t, registry, s.(clock := now))
    requires Enabled(t, registry, s, ResolverGet(id, bypass, now))
    ensures Inv(t, registry, Apply(t, registry, s, ResolverGet(id, bypass, now)))
  {
    var q, s1 := s.requests[id], s.(clock := now);
    assert RequestOk(t, registry, s1, q);
    if !bypass && Live(s.resolver, q.ref, t.resolverTtl, now) {
      var e := s.resolver[q.ref];
      assert ResolverEntryOk(t, registry, s1, q.ref, e);
      WithRequest(t, registry, s1, id, Answered(q.ref, q.since, e.document, e.readAt));
    } else {
      WithRequest(t, registry, s1, id, Looking(q.ref, q.since, now));
    }
  }

  lemma RelayGetInv(t: Timing, registry: Registry, s: State, id: nat, ref: string, now: int)
    requires ValidTiming(t) && Inv(t, registry, s.(clock := now)) && Enabled(t, registry, s, RelayGet(id, ref, now))
    ensures Inv(t, registry, Apply(t, registry, s, RelayGet(id, ref, now)))
  {
    var s1 := s.(clock := now);
    if Live(s.relay, ref, t.relayTtl, now) {
      assert RelayEntryOk(t, registry, s1, ref, s.relay[ref]);
      WithRequest(t, registry, s1, id, Holding(ref, now, s.relay[ref].document, s.relay[ref].readAt));
    } else {
      WithRequest(t, registry, s1, id, Asking(ref, now));
    }
  }

  lemma StepInv(t: Timing, registry: Registry, s: State, step: Step)
    requires ValidTiming(t) && Inv(t, registry, s) && Enabled(t, registry, s, step)
    ensures Inv(t, registry, Apply(t, registry, s, step))
  {
    var s1 := s.(clock := step.now);
    Later(t, registry, s, step.now);
    match step
    case RelayGet(id, ref, now) => RelayGetInv(t, registry, s, id, ref, now);
    case ClientGet(id, ref, now) => WithRequest(t, registry, s1, id, Asking(ref, now));
    case ResolverGet(id, bypass, now) => ResolverGetInv(t, registry, s, id, bypass, now);
    case RegistryRead(id, d, now) =>
      var q := s.requests[id];
      assert RequestOk(t, registry, s, q);
      WithRequest(t, registry, s1, id, Read(q.ref, q.since, q.begun, d, now));
    case ResolverStore(id, now) => ResolverStoreInv(t, registry, s, id, now);
    case RelayStore(id, now) => RelayStoreInv(t, registry, s, id, now);
    case Check(id, now) => CheckInv(t, registry, s, id, now);
    case Drop(id, _) => Without(t, registry, s1, id, "");
    case Invalidate(ref, _) => Without(t, registry, s1, 0, ref);
  }

  lemma {:induction false} RunInv(t: Timing, registry: Registry, start: int, steps: seq<Step>)
    requires ValidTiming(t) && Exec(t, registry, start, steps).Some?
    ensures Inv(t, registry, Exec(t, registry, start, steps).value)
  {
    if |steps| > 0 {
      var front := steps[..|steps| - 1];
      RunInv(t, registry, start, front);
      StepInv(t, registry, Exec(t, registry, start, front).value, steps[|steps| - 1]);
    }
  }

  /** Every key the relay ever checks a signature with is what the registry
      answered for that agent at some moment less than relayTtl + resolverTtl +
      the three delays before. */
  lemma BoundedStaleness(t: Timing, registry: Registry, start: int, steps: seq<Step>, i: nat)
    requires ValidTiming(t) && Exec(t, registry, start, steps).Some?
    requires i < |Exec(t, registry, start, steps).value.uses|
    ensures var u := Exec(t, registry, start, steps).value.uses[i];
            exists at, d :: registry(at, u.ref, d) && d.signingKey == u.signingKey
                            && at <= u.at < at + t.relayTtl + t.resolverTtl + t.requestMs + t.lookupMs + t.checkMs
  {
    RunInv(t, registry, start, steps);
    var u := Exec(t, registry, start, steps).value.uses[i];
    assert UseOk(t, registry, u);
    var d :| registry(u.readAt, u.ref, d) && d.signingKey == u.signingKey;
    assert registry(u.readAt, u.ref, d);
  }

  // ---- Bypass and invalidation ----

  /** The request was sent past the resolver's cache. */
  predicate PastCache(s: State, id: nat, from: int) {
    id in s.requests ==>
      match s.requests[id]
      case Looking(_, _, begun) => from <= begun
      case Read(_, _, begun, _, readAt) => from <= begun && from <= readAt
      case Answered(_, _, _, readAt) => from <= readAt
      case Holding(_, _, _, readAt) => from <= readAt
      case Asking(_, _) => true
  }

  lemma StepPastCache(t: Timing, registry: Registry, s: State, step: Step, id: nat, from: int)
    requires Enabled(t, registry, s, step) && from <= s.clock && PastCache(s, id, from)
    requires id in s.requests && !s.requests[id].Asking?
    ensures PastCache(Apply(t, registry, s, step), id, from)
    ensures var s' := Apply(t, registry, s, step);
            s.clock <= s'.clock && (id in s'.requests ==> !s'.requests[id].Asking?)
  {
  }

  /** The steps from a state on. */
  function ExecFrom(t: Timing, registry: Registry, s: State, steps: seq<Step>): Option<State> {
    if |steps| == 0 then Some(s)
    else
      var before := ExecFrom(t, registry, s, steps[..|steps| - 1]);
      if before.Some? && Enabled(t, registry, before.value, steps[|steps| - 1])
      then Some(Apply(t, registry, before.value, steps[|steps| - 1]))
      else None
  }

  /** The request is still on its way: no step has dropped it or taken its key. */
  predicate StillThere(t: Timing, registry: Registry, s: State, steps: seq<Step>, id: nat) {
    forall n :: 0 <= n <= |steps| && ExecFrom(t, registry, s, steps[..n]).Some? ==>
      id in ExecFrom(t, registry, s, steps[..n]).value.requests
  }

  lemma {:induction false} StaysPastCache(t: Timing, registry: Registry, s: State, steps: seq<Step>, id: nat, from: int)
    requires ExecFrom(t, registry, s, steps).Some? && StillThere(t, registry, s, steps, id)
    requires from <= s.clock && PastCache(s, id, from) && id in s.requests && !s.requests[id].Asking?
    ensures var s' := ExecFrom(t, registry, s, steps).value;
            && PastCache(s', id, from) && from <= s'.clock && id in s'.requests && !s'.requests[id].Asking?
  {
    assert steps[..|steps|] == steps;
    if |steps| > 0 {
      var front := steps[..|steps| - 1];
      assert forall n :: 0 <= n <= |front| ==> front[..n] == steps[..n];
      StaysPastCache(t, registry, s, front, id, from);
      StepPastCache(t, registry, ExecFrom(t, registry, s, front).value, steps[|steps| - 1], id, from);
    }
  }

  /** A request that asks for a fresh answer gets what the registry said after it
      had reached the resolver, whatever is cached and whoever stores what. */
  lemma BypassIsFresh(t: Timing, registry: Registry, s: State, id: nat, now: int, steps: seq<Step>)
    requires Enabled(t, registry, s, ResolverGet(id, true, now))
    requires var begun := Apply(t, registry, s, ResolverGet(id, true, now));
             ExecFrom(t, registry, begun, steps).Some? && StillThere(t, registry, begun, steps, id)
    ensures var s' := ExecFrom(t, registry, Apply(t, registry, s, ResolverGet(id, true, now)), steps).value;
            id in s'.requests && (s'.requests[id].Answered? ==> now <= s'.requests[id].readAt)
  {
    StaysPastCache(t, registry, Apply(t, registry, s, ResolverGet(id, true, now)), steps, id, now);
  }

  /** A ref that was invalidated is asked for again, and no other. */
  lemma InvalidatedIsAsked(t: Timing, registry: Registry, s: State, ref: string, other: string, id: nat, now: int)
    requires Enabled(t, registry, s, Invalidate(ref, now)) && id !in s.requests
    ensures var s' := Apply(t, registry, s, Invalidate(ref, now));
            && Enabled(t, registry, s', RelayGet(id, ref, now))
            && Apply(t, registry, s', RelayGet(id, ref, now)).requests[id] == Asking(ref, now)
            && (other != ref ==>
                  Apply(t, registry, s', RelayGet(id, other, now)).requests[id]
                  == Apply(t, registry, s, RelayGet(id, other, now)).requests[id])
  {
  }

  // ---- The bound is reached ----

  lemma ExecNext(t: Timing, registry: Registry, start: int, steps: seq<Step>, step: Step)
    requires Exec(t, registry, start, steps).Some? && Enabled(t, registry, Exec(t, registry, start, steps).value, step)
    ensures Exec(t, registry, start, steps + [step])
            == Some(Apply(t, registry, Exec(t, registry, start, steps).value, step))
  {
  }

  lemma Advance(t: Timing, registry: Registry, steps: seq<Step>, s: State, step: Step)
    returns (more: seq<Step>, s': State)
    requires Exec(t, registry, 0, steps) == Some(s) && Enabled(t, registry, s, step)
    ensures s' == Apply(t, registry, s, step) && Exec(t, registry, 0, more) == Some(s')
  {
    ExecNext(t, registry, 0, steps, step);
    more, s' := steps + [step], Apply(t, registry, s, step);
  }

  /** Some client fills the resolver's cache as slowly as it may. */
  lemma FillsResolver(t: Timing, registry: Registry, ref: string, d: SiiDocument) returns (steps: seq<Step>, s: State)
    requires registry(0, ref, d)
    ensures Exec(t, registry, 0, steps) == Some(s)
    ensures s.clock == t.lookupMs && s.relay == map[] && s.uses == [] && 1 !in s.requests && 2 !in s.requests
    ensures s.resolver == map[ref := KeyEntry(d, t.lookupMs, 0)]
  {
    steps := [];
    s := State(map[], map[], map[], [], 0);
    steps, s := Advance(t, registry, steps, s, ClientGet(0, ref, 0));
    steps, s := Advance(t, registry, steps, s, ResolverGet(0, false, 0));
    steps, s := Advance(t, registry, steps, s, RegistryRead(0, d, 0));
    steps, s := Advance(t, registry, steps, s, ResolverStore(0, t.lookupMs));
  }

  /** The relay asks when that entry is about to expire, gets its answer as slowly
      as it may, takes the key once more when its own entry is about to expire,
      and is as slow as may be to check a signature with it. */
  lemma OldestKey(t: Timing, registry: Registry, ref: string, d: SiiDocument) returns (steps: seq<Step>)
    requires ValidTiming(t) && registry(0, ref, d)
    ensures var s := Exec(t, registry, 0, steps);
            && s.Some? && |s.value.uses| == 1
            && s.value.uses[0] == Use(ref, d.signingKey, MaxAge(t), 0)
  {
    var ask := t.lookupMs + t.resolverTtl - 1;
    var got := ask + t.requestMs;
    var s: State;
    steps, s := FillsResolver(t, registry, ref, d);
    steps, s := Advance(t, registry, steps, s, RelayGet(1, ref, ask));
    steps, s := Advance(t, registry, steps, s, ResolverGet(1, false, ask));
    steps, s := Advance(t, registry, steps, s, RelayStore(1, got));
    steps, s := Advance(t, registry, steps, s, RelayGet(2, ref, got + t.relayTtl - 1));
    steps, s := Advance(t, registry, steps, s, Check(2, MaxAge(t)));
  }

  /** MaxAge is the exact bound: no use is older, and for every registry that
      answered at time 0 some run has a use that old. */
  lemma StalenessIsExact(t: Timing, registry: Registry, ref: string, d: SiiDocument)
    requires ValidTiming(t) && registry(0, ref, d)
    ensures forall start, steps, i |
              Exec(t, registry, start, steps).Some? && 0 <= i < |Exec(t, registry, start, steps).value.uses| ::
              Exec(t, registry, start, steps).value.uses[i].at
              <= Exec(t, registry, start, steps).value.uses[i].readAt + MaxAge(t)
    ensures exists steps :: Exec(t, registry, 0, steps).Some? && |Exec(t, registry, 0, steps).value.uses| == 1
              && Exec(t, registry, 0, steps).value.uses[0] == Use(ref, d.signingKey, MaxAge(t), 0)
  {
    forall start, steps, i | Exec(t, registry, start, steps).Some?
                             && 0 <= i < |Exec(t, registry, start, steps).value.uses|
      ensures Exec(t, registry, start, steps).value.uses[i].at
              <= Exec(t, registry, start, steps).value.uses[i].readAt + MaxAge(t)
    {
      RunInv(t, registry, start, steps);
      assert UseOk(t, registry, Exec(t, registry, start, steps).value.uses[i]);
    }
    var steps := OldestKey(t, registry, ref, d);
  }
}
