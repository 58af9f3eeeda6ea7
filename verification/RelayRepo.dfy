/** The relay's two tables (packages/relay/src/db.ts) and the statements that
    packages/relay/src/repo.ts runs against them. */
module RelayRepo {
  import opened Basics

  /** The fields of a wire envelope that vary; protocol_version and
      v2_reserved are constants. */
  datatype Envelope = Envelope(
    envelopeId: string,
    from: string,
    to: string,
    sentAt: string,
    ttlSeconds: int,
    ciphertext: string,
    ephemeralPubkey: string,
    signature: string)

  /** What a caller hands to TryStore: a row without its received_at. */
  datatype Submission = Submission(
    envelopeId: string,
    recipientId: string,
    senderId: string,
    signature: string,
    expiresAt: int,
    payload: Envelope)

  datatype Row = Row(
    envelopeId: string,
    recipientId: string,
    senderId: string,
    signature: string,
    receivedAt: int,
    expiresAt: int,
    payload: Envelope)

  /** The envelopes table; envelope_id is its primary key. */
  type Table = map<string, Row>

  datatype StoreResult =
    | Stored(receivedAt: int)
    | Duplicate(receivedAt: int)
    | Conflict(receivedAt: int)

  datatype EvictedRow = EvictedRow(envelopeId: string, recipientId: string)

  datatype NonceRow = NonceRow(agentId: string, seenAt: int)

  /** The pickup_nonces table; the nonce alone is its primary key. */
  type NonceTable = map<string, NonceRow>

  predicate Keyed(t: Table) {
    forall id :: id in t ==> t[id].envelopeId == id
  }

  function RowOf(sub: Submission, now: int): Row {
    Row(sub.envelopeId, sub.recipientId, sub.senderId, sub.signature, now, sub.expiresAt, sub.payload)
  }

  function StoreOutcome(t: Table, sub: Submission, now: int): StoreResult {
    if sub.envelopeId !in t then Stored(now)
    else if t[sub.envelopeId].signature == sub.signature then Duplicate(t[sub.envelopeId].receivedAt)
    else Conflict(t[sub.envelopeId].receivedAt)
  }

  function AfterStore(t: Table, sub: Submission, now: int): Table {
    if sub.envelopeId in t then t else t[sub.envelopeId := RowOf(sub, now)]
  }

  function PickupIds(t: Table, recipientId: string, sinceMs: int): set<string> {
    set id | id in t && t[id].recipientId == recipientId && t[id].receivedAt >= sinceMs
  }

  function AckHits(t: Table, recipientId: string, ids: seq<string>): set<string> {
    set id | id in t && t[id].recipientId == recipientId && id in ids
  }

  function ExpiredIds(t: Table, nowMs: int): set<string> {
    set id | id in t && t[id].expiresAt <= nowMs
  }

  function RowIds(rows: seq<Row>): seq<string> {
    seq(|rows|, i requires 0 <= i < |rows| => rows[i].envelopeId)
  }

  function EvictedIds(rows: seq<EvictedRow>): seq<string> {
    seq(|rows|, i requires 0 <= i < |rows| => rows[i].envelopeId)
  }

  /** The rows named by ids, each once, oldest first. Ties on received_at may
      come in any order. */
  predicate Listing(t: Table, ids: set<string>, out: seq<Row>) {
    && Lists(RowIds(out), ids)
    && (forall i :: 0 <= i < |out| ==> out[i].envelopeId in t && out[i] == t[out[i].envelopeId])
    && OldestFirst(out)
  }

  predicate OldestFirst(rows: seq<Row>) {
    forall i, j :: 0 <= i < j < |rows| ==> rows[i].receivedAt <= rows[j].receivedAt
  }

  /** out is an answer to the pickup query. */
  predicate Served(t: Table, recipientId: string, sinceMs: int, out: seq<Row>) {
    Listing(t, PickupIds(t, recipientId, sinceMs), out)
  }

  /** out is an answer to the expiry query, in any order. */
  predicate ListsExpired(t: Table, nowMs: int, out: seq<EvictedRow>) {
    && Lists(EvictedIds(out), ExpiredIds(t, nowMs))
    && (forall i :: 0 <= i < |out| ==> out[i].envelopeId in t && out[i].recipientId == t[out[i].envelopeId].recipientId)
  }

  /** Where a row goes in a listing ordered by received_at. */
  function Position(rows: seq<Row>, row: Row): (k: nat)
    requires OldestFirst(rows)
    ensures k <= |rows|
    ensures forall i :: 0 <= i < k ==> rows[i].receivedAt <= row.receivedAt
    ensures forall i :: k <= i < |rows| ==> row.receivedAt <= rows[i].receivedAt
  {
    if |rows| == 0 then 0
    else if rows[|rows| - 1].receivedAt <= row.receivedAt then |rows|
    else Position(rows[..|rows| - 1], row)
  }

  /** Adds a row to a listing at its place in time. */
  function Insert(rows: seq<Row>, row: Row): seq<Row>
    requires OldestFirst(rows)
  {
    var k := Position(rows, row);
    rows[..k] + [row] + rows[k..]
  }

  lemma ListingInsert(t: Table, ids: set<string>, out: seq<Row>, id: string)
    requires Keyed(t) && id in t && id !in ids && Listing(t, ids, out)
    ensures Listing(t, ids + {id}, Insert(out, t[id]))
  {
    var k := Position(out, t[id]);
    var grown := Insert(out, t[id]);
    assert RowIds(grown) == RowIds(out)[..k] + [id] + RowIds(out)[k..];
    ListsInsert(RowIds(out), ids, k, id);
  }

  /** EnvelopeRepo: the statements on the envelopes table. */
  class EnvelopeRepo {
    var rows: Table

    constructor ()
      ensures rows == map[]
    {
      rows := map[];
    }

    method TryStore(sub: Submission, now: int) returns (result: StoreResult)
      modifies this
      ensures result == StoreOutcome(old(rows), sub, now)
      ensures rows == AfterStore(old(rows), sub, now)
    {
      if sub.envelopeId in rows {
        var existing := rows[sub.envelopeId];
        if existing.signature == sub.signature {
          return Duplicate(existing.receivedAt);
        }
        return Conflict(existing.receivedAt);
      }
      rows := rows[sub.envelopeId := RowOf(sub, now)];
      return Stored(now);
    }

    method ForRecipientSince(recipientId: string, sinceMs: int) returns (out: seq<Row>)
      requires Keyed(rows)
      ensures Served(rows, recipientId, sinceMs, out)
    {
      out := [];
      var matching := PickupIds(rows, recipientId, sinceMs);
      var rest := matching;
      while rest != {}
        invariant rest <= matching
        invariant Listing(rows, matching - rest, out)
        decreases rest
      {
        var id :| id in rest;
        ListingInsert(rows, matching - rest, out, id);
        assert matching - (rest - {id}) == matching - rest + {id};
        out := Insert(out, rows[id]);
        rest := rest - {id};
      }
      assert matching - {} == matching;
    }

    method AckForRecipient(recipientId: string, envelopeIds: seq<string>) returns (hits: seq<string>)
      modifies this
      ensures Lists(hits, AckHits(old(rows), recipientId, envelopeIds))
      ensures rows == old(rows) - AckHits(old(rows), recipientId, envelopeIds)
    {
      if |envelopeIds| == 0 {
        return [];
      }
      hits := Enumerate(AckHits(rows, recipientId, envelopeIds));
      if |hits| == 0 {
        assert Elems(hits) == {};
        return [];
      }
      rows := rows - AckHits(rows, recipientId, hits);
    }

    method EvictExpired(nowMs: int) returns (evicted: seq<EvictedRow>)
      modifies this
      ensures ListsExpired(old(rows), nowMs, evicted)
      ensures rows == old(rows) - ExpiredIds(old(rows), nowMs)
    {
      var ids := Enumerate(ExpiredIds(rows, nowMs));
      assert forall i :: 0 <= i < |ids| ==> ids[i] in Elems(ids);
      evicted := [];
      for n := 0 to |ids|
        invariant EvictedIds(evicted) == ids[..n]
        invariant forall i :: 0 <= i < n ==> evicted[i] == EvictedRow(ids[i], rows[ids[i]].recipientId)
      {
        evicted := evicted + [EvictedRow(ids[n], rows[ids[n]].recipientId)];
      }
      assert ids[..|ids|] == ids;
      assert forall i :: 0 <= i < |evicted| ==> evicted[i].envelopeId == ids[i];
      rows := rows - ExpiredIds(rows, nowMs);
    }
  }

  /** The nonces that survive the DELETE at the head of tryClaim. */
  function Purged(nonces: NonceTable, windowSeconds: nat, nowMs: int): NonceTable {
    map n | n in nonces && nonces[n].seenAt >= nowMs - windowSeconds * 1000 :: nonces[n]
  }

  predicate Claimable(nonces: NonceTable, windowSeconds: nat, nonce: string, nowMs: int) {
    nonce !in Purged(nonces, windowSeconds, nowMs)
  }

  function AfterClaim(nonces: NonceTable, windowSeconds: nat, nonce: string, agentId: string, nowMs: int): NonceTable {
    var kept := Purged(nonces, windowSeconds, nowMs);
    if nonce in kept then kept else kept[nonce := NonceRow(agentId, nowMs)]
  }

  /** NonceRepo: the anti-replay table. */
  class NonceRepo {
    const windowSeconds: nat
    var nonces: NonceTable

    constructor (windowSeconds: nat)
      ensures this.windowSeconds == windowSeconds && nonces == map[]
    {
      this.windowSeconds := windowSeconds;
      nonces := map[];
    }

    method TryClaim(nonce: string, agentId: string, nowMs: int) returns (ok: bool)
      modifies this`nonces
      ensures ok == Claimable(old(nonces), windowSeconds, nonce, nowMs)
      ensures nonces == AfterClaim(old(nonces), windowSeconds, nonce, agentId, nowMs)
    {
      nonces := map n | n in nonces && nonces[n].seenAt >= nowMs - windowSeconds * 1000 :: nonces[n];
      if nonce in nonces {
        return false;
      }
      nonces := nonces[nonce := NonceRow(agentId, nowMs)];
      return true;
    }
  }
}
