/** The resolver: registry lookup with its triple check, and the caching route
    in front of it. Sources: packages/resolver/src/registry/sii.ts and
    packages/resolver/src/routes/resolve.ts. */
module Resolver {
  import opened Basics
  import opened ScutUri

  /** The parts of an SII document that matter here. */
  datatype SiiDocument = SiiDocument(agentRef: AgentRef, signingKey: string, encryptionKey: string)

  datatype RegistryConfig = RegistryConfig(chainId: nat, contract: string)

  /** What the chain and the document host can answer. */
  datatype ChainAnswer = Reverted | RpcFailed | NoUri | FetchFailed | SchemaInvalid | Document(document: SiiDocument)

  datatype LookupResult = Found(document: SiiDocument) | NotFound | LookupFailed

  /** lookupRef. */
  function LookupRef(config: RegistryConfig, ref: AgentRef, answer: ChainAnswer): LookupResult {
    if ref.chainId != config.chainId then LookupFailed
    else
      match answer
      case Reverted => NotFound
      case NoUri => NotFound
      case Document(d) =>
        if d.agentRef.chainId != ref.chainId || Lower(d.agentRef.contract) != Lower(ref.contract)
           || d.agentRef.tokenId != ref.tokenId
        then LookupFailed
        else Found(d)
      case _ => LookupFailed
  }

  /** lookup: a scut:// URI, or a bare token id of the configured contract. */
  function Lookup(config: RegistryConfig, key: string, answer: ChainAnswer): LookupResult {
    if IsScutUri(key) then LookupRef(config, ParseUri(key).value, answer)
    else if IsNumeral(key) then LookupRef(config, AgentRef(config.chainId, Lower(config.contract), key), answer)
    else LookupFailed
  }

  /** The one URI a successful answer for this key may report. */
  function CanonicalRef(config: RegistryConfig, key: string): string {
    if IsScutUri(key) then Normal(key)
    else FormatUri(AgentRef(config.chainId, config.contract, key))
  }

  lemma SameUri(a: AgentRef, b: AgentRef)
    requires a.chainId == b.chainId && Lower(a.contract) == Lower(b.contract) && a.tokenId == b.tokenId
    ensures FormatUri(a) == FormatUri(b)
  {
  }

  lemma LowerTwice(s: string)
    ensures Lower(Lower(s)) == Lower(s)
  {
    assert forall i :: 0 <= i < |s| ==> LowerChar(LowerChar(s[i])) == LowerChar(s[i]);
  }

  lemma FoundIsAsked(config: RegistryConfig, ref: AgentRef, answer: ChainAnswer)
    requires LookupRef(config, ref, answer).Found?
    ensures FormatUri(LookupRef(config, ref, answer).document.agentRef) == FormatUri(ref)
  {
    SameUri(LookupRef(config, ref, answer).document.agentRef, ref);
  }

  lemma LookupIsCanonical(config: RegistryConfig, key: string, answer: ChainAnswer)
    ensures Lookup(config, key, answer).Found? ==>
              FormatUri(Lookup(config, key, answer).document.agentRef) == CanonicalRef(config, key)
  {
    if Lookup(config, key, answer).Found? {
      if IsScutUri(key) {
        FoundIsAsked(config, ParseUri(key).value, answer);
      } else {
        var ref := AgentRef(config.chainId, Lower(config.contract), key);
        FoundIsAsked(config, ref, answer);
        LowerTwice(config.contract);
        SameUri(ref, AgentRef(config.chainId, config.contract, key));
      }
    }
  }

  /** A key that the resolver of this registry can look up: a URI on its chain,
      or a bare token id. */
  predicate InRegistry(config: RegistryConfig, key: string) {
    (IsScutUri(key) && ParseUri(key).value.chainId == config.chainId) || (!IsScutUri(key) && IsNumeral(key))
  }

  lemma SameUriIff(a: AgentRef, b: AgentRef)
    requires WellFormedRef(a) && WellFormedRef(b)
    ensures FormatUri(a) == FormatUri(b)
            <==> a.chainId == b.chainId && Lower(a.contract) == Lower(b.contract) && a.tokenId == b.tokenId
  {
    ParseAfterFormat(a);
    ParseAfterFormat(b);
  }

  /** The reference that a key names. */
  lemma LookedUp(config: RegistryConfig, key: string, answer: ChainAnswer) returns (ref: AgentRef)
    requires InRegistry(config, key) && IsAddress(config.contract)
    ensures WellFormedRef(ref) && ref.chainId == config.chainId && FormatUri(ref) == CanonicalRef(config, key)
    ensures Lookup(config, key, answer) == LookupRef(config, ref, answer)
  {
    if IsScutUri(key) {
      ref := ParseUri(key).value;
      ParsedRefIsWellFormed(key);
    } else {
      ref := AgentRef(config.chainId, Lower(config.contract), key);
      LowerAddress(config.contract);
      SameUri(ref, AgentRef(config.chainId, config.contract, key));
    }
  }

  /** A document is found exactly when it speaks of the agent that was asked for,
      in whatever spelling; and then it is that document. */
  lemma FoundIff(config: RegistryConfig, key: string, d: SiiDocument)
    requires InRegistry(config, key) && IsAddress(config.contract) && WellFormedRef(d.agentRef)
    ensures Lookup(config, key, Document(d))
            == if FormatUri(d.agentRef) == CanonicalRef(config, key) then Found(d) else LookupFailed
  {
    var ref := LookedUp(config, key, Document(d));
    SameUriIff(d.agentRef, ref);
  }

  /** What comes of every other answer, and of every other key. */
  lemma NotFoundIff(config: RegistryConfig, key: string, answer: ChainAnswer)
    requires IsAddress(config.contract)
    ensures InRegistry(config, key) && !answer.Document? ==>
              (Lookup(config, key, answer) == NotFound <==> answer.Reverted? || answer.NoUri?)
              && (Lookup(config, key, answer) == LookupFailed
                  <==> answer.RpcFailed? || answer.FetchFailed? || answer.SchemaInvalid?)
    ensures !InRegistry(config, key) ==> Lookup(config, key, answer) == LookupFailed
  {
    if InRegistry(config, key) {
      var ref := LookedUp(config, key, answer);
    }
  }

  datatype CachedEntry = CachedEntry(document: SiiDocument, fetchedAt: int)

  /** An entry of a cache and when the registry gave the answer, which no program
      sees. */
  datatype KeyEntry = KeyEntry(document: SiiDocument, fetchedAt: int, readAt: int)

  datatype ResolveReply =
    | Resolved200(ref: string, document: SiiDocument, fetchedAt: int, requestedRef: string)
    | Missing400
    | NotFound404
    | Failed502

  function Respond(key: string, entry: CachedEntry): ResolveReply {
    Resolved200(FormatUri(entry.document.agentRef), entry.document, entry.fetchedAt, key)
  }

  /** The route and its cache. Each request is two pieces around the lookup. */
  class ResolveRoute {
    const config: RegistryConfig
    const ttlMs: nat
    var cache: map<string, CachedEntry>
    ghost var model: map<string, KeyEntry>

    /** A cached document answers for its key. */
    ghost predicate Valid()
      reads this
    {
      && cache.Keys == model.Keys
      && forall key :: key in cache ==>
           && FormatUri(cache[key].document.agentRef) == CanonicalRef(config, key)
           && cache[key] == CachedEntry(model[key].document, model[key].fetchedAt)
    }

    constructor (config: RegistryConfig, ttlSeconds: nat)
      ensures Valid() && this.config == config && ttlMs == ttlSeconds * 1000 && cache == map[] && model == map[]
    {
      this.config := config;
      ttlMs := ttlSeconds * 1000;
      cache, model := map[], map[];
    }

    /** Up to the lookup: an answer from the cache, or None to go on. */
    method Begin(key: string, fresh_: bool, now: int) returns (reply: Option<ResolveReply>)
      requires Valid()
      ensures reply.Some? && reply.value.Resolved200? ==>
                && !fresh_ && key in cache && now - cache[key].fetchedAt < ttlMs
                && reply.value.document == cache[key].document && reply.value.fetchedAt == cache[key].fetchedAt
                && reply.value.ref == CanonicalRef(config, key) && reply.value.requestedRef == key
      ensures reply.None? <==> key != "" && (fresh_ || key !in cache || now - cache[key].fetchedAt >= ttlMs)
      ensures reply == Some(Missing400) <==> key == ""
    {
      if key == "" {
        return Some(Missing400);
      }
      if !fresh_ && key in cache && now - cache[key].fetchedAt < ttlMs {
        return Some(Respond(key, cache[key]));
      }
      return None;
    }

    /** From the lookup on. */
    method Finish(key: string, answer: ChainAnswer, now: int, ghost readAt: int) returns (reply: ResolveReply)
      requires Valid()
      modifies this
      ensures Valid()
      ensures match Lookup(config, key, answer)
              case Found(d) => reply == Resolved200(CanonicalRef(config, key), d, now, key)
                               && cache == old(cache)[key := CachedEntry(d, now)]
                               && model == old(model)[key := KeyEntry(d, now, readAt)]
              case NotFound => reply == NotFound404 && cache == old(cache) && model == old(model)
              case LookupFailed => reply == Failed502 && cache == old(cache) && model == old(model)
    {
      LookupIsCanonical(config, key, answer);
      var result := Lookup(config, key, answer);
      match result
      case Found(d) =>
        var entry := CachedEntry(d, now);
        cache := cache[key := entry];
        model := model[key := KeyEntry(d, now, readAt)];
        reply := Respond(key, entry);
      case NotFound =>
        reply := NotFound404;
      case LookupFailed =>
        reply := Failed502;
    }
  }
}
