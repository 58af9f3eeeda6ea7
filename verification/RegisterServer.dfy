/** The registration service's handlers over its database and the contract, each
    split at its awaits, and the proof that every piece is the step of
    RegisterMachine that models it. A status of 0 means that the handler is
    still waiting for a transaction. */
module RegisterServer {
  import opened Basics
  import opened Contract
  import opened RegisterMachine
  import RegisterDb
  import ScutUri

  lemma SameChallenge(tokenId: string, newOwner: string)
    ensures "scut/v1/transfer:" + tokenId + ":" + newOwner == TransferChallenge(tokenId, newOwner)
  {
    assert "scut/v1/transfer:" == "scut/v1/transfer" + [':'];
  }

  class RegisterService {
    const env: Env
    const db: RegisterDb.RegisterDb
    const registry: OpenSCUTRegistry
    /** Handlers waiting for a transaction, and transactions that nobody waits
        for any more. */
    var jobs: map<nat, Job>
    ghost var moves: seq<Move>
    ghost var writes: seq<Write>
    ghost var checked: map<nat, nat>
    ghost var history: seq<Entry>
    ghost var clock: int

    ghost function View(): World
      reads this, db, registry
    {
      World(registry.State(), moves, writes, db.registrations, db.dailyCounts, jobs, checked, history, clock)
    }

    constructor (env: Env, start: int)
      ensures fresh(db) && fresh(registry) && this.env == env && View() == Init(start)
    {
      this.env := env;
      db := new RegisterDb.RegisterDb();
      registry := new OpenSCUTRegistry();
      jobs, checked, clock := map[], map[], start;
      moves, writes, history := [], [], [];
    }

    // ---- register.ts ----

    method RegisterBegin(job: nat, request: Request, asked: int, now: int) returns (status: nat)
      requires Enabled(env, View(), RegisterStart(job, request, asked, now))
      modifies this
      ensures View() == Apply(env, old(View()), RegisterStart(job, request, asked, now))
      ensures status == RegisterRefusal(env, old(View()), request, asked, now)
    {
      clock := now;
      if request.displayName.Some? {
        var dailyForName := db.CountByDisplayNameToday(request.displayName.value, asked);
        if dailyForName >= 1 {
          return 429;
        }
      }
      var globalToday := db.CountToday(now);
      if globalToday >= env.globalPerDay {
        return 503;
      }
      jobs := jobs[job := Minting(request)];
      return 0;
    }

    method RegisterEnd(job: nat, made: int, now: int) returns (status: nat)
      requires Enabled(env, View(), RegisterCommit(job, made, now))
      modifies this, db
      ensures View() == Apply(env, old(View()), RegisterCommit(job, made, now))
      ensures status == if ScutUri.Decimal(old(jobs)[job].token) in old(db.registrations) then 500 else 201
    {
      var request, id := jobs[job].request, ScutUri.Decimal(jobs[job].token);
      jobs, clock := jobs - {job}, now;
      var ok := db.InsertRegistration(id, request.signingKey, request.encryptionKey, request.displayName, made, made);
      if !ok {
        return 500;
      }
      db.IncrementToday(now);
      history := history + [Registered(id, request.signingKey, made, now)];
      return 201;
    }

    // ---- update.ts ----

    method UpdateBegin(job: nat, tokenId: string, doc: Doc, signature: string) returns (status: nat)
      requires Enabled(env, View(), UpdateStart(job, tokenId, doc, signature))
      modifies this
      ensures View() == Apply(env, old(View()), UpdateStart(job, tokenId, doc, signature))
      ensures status == UpdateRefusal(env, old(View()), tokenId, doc, signature)
    {
      if !ScutUri.IsNumeral(tokenId) {
        return 400;
      }
      var row := db.FindByTokenId(tokenId);
      if row.None? {
        return 404;
      }
      if !row.value.custodial {
        return 409;
      }
      var valid := env.signsDoc(row.value.ed25519PublicKey, doc, signature);
      if valid.Throws? {
        return 400;
      }
      if valid.Invalid? {
        return 401;
      }
      if doc.tokenId != Some(tokenId) {
        return 400;
      }
      jobs := jobs[job := UpdateSigned(tokenId, doc, signature)];
      checked := checked[job := |history|];
      return 0;
    }

    method UpdateEnd(job: nat, now: int) returns (status: nat)
      requires Enabled(env, View(), UpdateCommit(job, now))
      modifies this, db
      ensures View() == Apply(env, old(View()), UpdateCommit(job, now))
      ensures status == 200
    {
      ghost var before := View();
      var waiting := jobs[job];
      jobs, clock := jobs - {job}, now;
      db.UpdateAfterMutation(waiting.tokenId,
                             RegisterDb.Mutation(waiting.doc.signingKey, waiting.doc.encryptionKey, None), now);
      history := history + [Updated(waiting.tokenId, waiting.doc, waiting.signature, CheckedAt(before, job))];
      return 200;
    }

    // ---- transfer.ts ----

    method TransferBegin(job: nat, tokenId: string, newOwner: string, signature: string) returns (status: nat)
      requires Enabled(env, View(), TransferStart(job, tokenId, newOwner, signature))
      modifies this
      ensures View() == Apply(env, old(View()), TransferStart(job, tokenId, newOwner, signature))
      ensures status == TransferRefusal(env, old(View()), tokenId, newOwner, signature)
    {
      if !ScutUri.IsNumeral(tokenId) || !ScutUri.IsAddress(newOwner) {
        return 400;
      }
      var row := db.FindByTokenId(tokenId);
      if row.None? {
        return 404;
      }
      if !row.value.custodial {
        return 409;
      }
      var challenge := "scut/v1/transfer:" + tokenId + ":" + ScutUri.Lower(newOwner);
      SameChallenge(tokenId, ScutUri.Lower(newOwner));
      var valid := env.signsText(row.value.ed25519PublicKey, challenge, signature);
      if valid.Throws? {
        return 500;
      }
      if valid.Invalid? {
        return 401;
      }
      jobs := jobs[job := TransferSigned(tokenId, ScutUri.Lower(newOwner))];
      return 0;
    }

    method TransferEnd(job: nat, now: int) returns (status: nat)
      requires Enabled(env, View(), TransferCommit(job, now))
      modifies this, db
      ensures View() == Apply(env, old(View()), TransferCommit(job, now))
      ensures status == 200
    {
      var waiting := jobs[job];
      jobs, clock := jobs - {job}, now;
      db.UpdateAfterMutation(waiting.tokenId, RegisterDb.Mutation(None, None, Some(false)), now);
      history := history + [Released(waiting.tokenId)];
      return 200;
    }

    // ---- registry-client.ts ----

    /** The transaction a handler waits for takes effect. */
    method Transact(job: nat)
      requires Enabled(env, View(), Tx(job))
      modifies this, registry
      ensures View() == Apply(env, old(View()), Tx(job))
    {
      ghost var before := registry.State();
      var waiting := jobs[job];
      ghost var call := TxCall(env, waiting).value;
      moves, writes := moves + MovesOf(before, call), writes + WritesOf(before, call);
      match waiting
      case Minting(request) =>
        var tokenId := registry.MintToken(env.wallet, PLACEHOLDER_URI, true);
        jobs := jobs[job := Minted(request, tokenId.value)];
      case Minted(request, token) =>
        var ok := registry.Update(env.wallet, token, env.encode(RegisteredDoc(request, token)));
        jobs := jobs[job := Rewritten(request, token)];
      case UpdateSigned(tokenId, doc, signature) =>
        var ok := registry.Update(env.wallet, ScutUri.NumberOf(tokenId), env.encode(doc));
        jobs := jobs[job := UpdateWritten(tokenId, doc, signature)];
      case TransferSigned(tokenId, newOwner) =>
        var ok := registry.Transfer(env.wallet, env.wallet, newOwner, ScutUri.NumberOf(tokenId));
        jobs := jobs[job := Moved(tokenId, newOwner)];
      case Forgotten(pending) =>
        Land(pending);
        jobs := jobs[job := Spent];
    }

    /** A pending transaction takes effect with nobody waiting for it. */
    method Land(call: Call)
      requires Effect(registry.State(), call).Some?
      modifies registry
      ensures registry.State() == Effect(old(registry.State()), call).value
    {
      match call
      case Mint(recipient, uri, received) =>
        var tokenId := registry.MintToken(recipient, uri, received);
      case UpdateIdentityURI(caller, tokenId, uri) =>
        var ok := registry.Update(caller, tokenId, uri);
      case TransferFrom(caller, tokenId, source, recipient) =>
        var ok := registry.Transfer(caller, source, recipient, tokenId);
      case Approve(caller, tokenId, spender) =>
        var ok := registry.ApproveOne(caller, tokenId, spender);
      case SetApprovalForAll(caller, operator, allowed) =>
        var ok := registry.ApproveAll(caller, operator, allowed);
    }

    /** A 502: the transaction failed, or its receipt never came. */
    method Abandon(job: nat) returns (status: nat)
      requires Enabled(env, View(), Fail(job))
      modifies this
      ensures View() == Apply(env, old(View()), Fail(job))
      ensures status == 502
    {
      jobs := jobs - {job};
      return 502;
    }

    /** A 502 while the transaction is still pending. */
    method StopWaiting(job: nat) returns (status: nat)
      requires Enabled(env, View(), GiveUp(job))
      modifies this
      ensures View() == Apply(env, old(View()), GiveUp(job))
      ensures status == 502
    {
      jobs := jobs[job := Forgotten(TxCall(env, jobs[job]).value)];
      return 502;
    }
  }
}
