/** What the database knows of the chain: the key it holds for a token against
    the key in the token's on-chain document. They agree exactly when the last
    document to land is not at odds with the last key to be accepted. */
module ChainAgreement {
  import opened Basics
  import opened Contract
  import opened RegisterDb
  import opened RegisterMachine
  import opened RegisterRuns
  import opened KeySuccession
  import ScutUri

  predicate Custodial(w: World, id: string) {
    id in w.rows && ScutUri.IsNumeral(id) && w.rows[id].custodial
  }

  predicate WalletOwns(env: Env, c: Chain, token: nat) {
    token in c.owners && token in c.uris && c.owners[token] == env.wallet
  }

  /** The key that the document at a URI carries, if it is one and does. */
  function KeyAt(env: Env, uri: string): Option<string> {
    var doc := env.decode(uri);
    if doc.Some? && Carried(doc.value.signingKey) then doc.value.signingKey else None
  }

  predicate KeyAgrees(env: Env, key: string, uri: string) {
    KeyAt(env, uri).Some? ==> KeyAt(env, uri) == Some(key)
  }

  /** The wallet owns the token, and the key in the token's document, if there
      is one, is the one in its row. */
  predicate RowOnChain(env: Env, w: World, id: string)
    requires Custodial(w, id)
  {
    && WalletOwns(env, w.chain, ScutUri.NumberOf(id))
    && KeyAgrees(env, w.rows[id].ed25519PublicKey, w.chain.uris[ScutUri.NumberOf(id)])
  }

  // ---- Exactly when they agree ----

  /** The last URI written for a token, by whoever. */
  function LastWrite(writes: seq<Write>, token: nat): Option<string> {
    if |writes| == 0 then None
    else if writes[|writes| - 1].token == token then Some(writes[|writes| - 1].uri)
    else LastWrite(writes[..|writes| - 1], token)
  }

  predicate UriIsLastWrite(w: World, token: nat) {
    LastWrite(w.writes, token) == if token in w.chain.uris then Some(w.chain.uris[token]) else None
  }

  lemma NextWrite(writes: seq<Write>, last: Write, token: nat)
    ensures LastWrite(writes + [last], token)
            == if last.token == token then Some(last.uri) else LastWrite(writes, token)
  {
    assert (writes + [last])[..|writes|] == writes;
  }

  lemma CallWrites(w: World, call: Call, token: nat)
    requires Effect(w.chain, call).Some? && UriIsLastWrite(w, token)
    ensures UriIsLastWrite(Called(w, call), token)
  {
    match call
    case Mint(_, uri, _) => NextWrite(w.writes, Write(w.chain.nextTokenId, uri), token);
    case UpdateIdentityURI(_, id, uri) => NextWrite(w.writes, Write(id, uri), token);
    case _ => assert Called(w, call).writes == w.writes;
  }

  lemma StepWrites(env: Env, w: World, step: Step, token: nat)
    requires Enabled(env, w, step) && UriIsLastWrite(w, token)
    ensures UriIsLastWrite(Apply(env, w, step), token)
  {
    match step
    case Tx(job) => CallWrites(w, TxCall(env, w.jobs[job]).value, token);
    case Outside(call) => CallWrites(w, call, token);
    case _ => ChainStays(env, w, step);
  }

  lemma {:induction false} RunWrites(env: Env, start: int, steps: seq<Step>, token: nat)
    requires IsRun(env, start, steps)
    ensures UriIsLastWrite(Exec(env, start, steps).value, token)
  {
    if |steps| > 0 {
      var front := steps[..|steps| - 1];
      RunWrites(env, start, front, token);
      StepWrites(env, Exec(env, start, front).value, steps[|steps| - 1], token);
    }
  }

  /** The key in the last document to land for a token, if that carries one. */
  function LastKeyLanded(env: Env, writes: seq<Write>, token: nat): Option<string> {
    if LastWrite(writes, token).Some? then KeyAt(env, LastWrite(writes, token).value) else None
  }

  /** In landing order the last document, in order of acceptance the last key:
      the document carries that key, or none. */
  predicate LastLandedIsLastAccepted(env: Env, writes: seq<Write>, history: seq<Entry>, id: string, token: nat) {
    LastKeyLanded(env, writes, token).Some? ==> LastKeyLanded(env, writes, token) == KeyInForce(history, id)
  }

  /** In every run, whatever overlaps, fails, lands late or is done by others:
      database and chain agree on a custodial token exactly when the wallet got
      the token once more than it gave it away, and the last document to land
      carries no key or the last key to be accepted. */
  lemma AgreementIff(env: Env, start: int, steps: seq<Step>, id: string)
    requires IsRun(env, start, steps) && Custodial(Exec(env, start, steps).value, id)
    ensures var w, token := Exec(env, start, steps).value, ScutUri.NumberOf(id);
            RowOnChain(env, w, id)
            <==> Arrivals(w.moves, token, env.wallet) == Departures(w.moves, token, env.wallet) + 1
                 && LastLandedIsLastAccepted(env, w.writes, w.history, id, token)
  {
    var w, token := Exec(env, start, steps).value, ScutUri.NumberOf(id);
    TransferBalance(env, start, steps, token);
    RunWrites(env, start, steps, token);
    DatabaseHoldsLastKey(env, start, steps, id);
    RunKeeps(env, start, steps);
    assert TokenText(w.chain, id);
  }

  // ---- Tokens that the service never transferred ----

  predicate Came(w: World, token: nat, wallet: string) {
    Arrivals(w.moves, token, wallet) >= 1
  }

  predicate AllCame(w: World, wallet: string) {
    && (forall id :: id in w.rows && ScutUri.IsNumeral(id) ==> Came(w, ScutUri.NumberOf(id), wallet))
    && (forall j :: j in w.jobs && NewToken(w.jobs[j]).Some? ==> Came(w, NewToken(w.jobs[j]).value, wallet))
  }

  lemma CallCame(w: World, call: Call, token: nat, wallet: string)
    requires Effect(w.chain, call).Some?
    ensures Came(w, token, wallet) ==> Came(Called(w, call), token, wallet)
    ensures call.Mint? && call.recipient == wallet && token == w.chain.nextTokenId ==>
              Came(Called(w, call), token, wallet)
  {
    if MovesOf(w.chain, call) == [] {
      assert Called(w, call).moves == w.moves;
    } else {
      OneMoreMove(w.moves, MovesOf(w.chain, call)[0], token, wallet);
    }
  }

  lemma CalledAllCame(w: World, call: Call, wallet: string)
    requires Effect(w.chain, call).Some? && AllCame(w, wallet)
    ensures AllCame(Called(w, call), wallet)
  {
    forall token: nat | Came(w, token, wallet)
      ensures Came(Called(w, call), token, wallet)
    {
      CallCame(w, call, token, wallet);
    }
  }

  lemma TxAllCame(env: Env, w: World, job: nat)
    requires TxEnabled(env, w, job) && AllCame(w, env.wallet)
    ensures AllCame(AfterTxStep(env, w, job), env.wallet)
  {
    var call, w' := TxCall(env, w.jobs[job]).value, AfterTxStep(env, w, job);
    var called := Called(w, call);
    CalledAllCame(w, call, env.wallet);
    CallCame(w, call, w.chain.nextTokenId, env.wallet);
    AfterTxTokens(w.jobs[job], w.chain.nextTokenId);
    forall j | j in w'.jobs && NewToken(w'.jobs[j]).Some?
      ensures Came(w', NewToken(w'.jobs[j]).value, env.wallet)
    {
      assert j != job ==> w'.jobs[j] == called.jobs[j];
      assert Came(called, NewToken(w'.jobs[j]).value, env.wallet);
    }
    forall id | id in w'.rows && ScutUri.IsNumeral(id)
      ensures Came(w', ScutUri.NumberOf(id), env.wallet)
    {
      assert Came(called, ScutUri.NumberOf(id), env.wallet);
    }
  }

  lemma RegisterAllCame(w: World, job: nat, made: int, now: int, wallet: string)
    requires AllCame(w, wallet) && job in w.jobs && w.jobs[job].Rewritten?
    ensures AllCame(AfterRegister(w, job, made, now), wallet)
  {
    assert ScutUri.NumberOf(ScutUri.Decimal(w.jobs[job].token)) == w.jobs[job].token;
  }

  /** No token is being registered that was not before, and no row is new. */
  lemma FewerCame(w: World, w': World, wallet: string)
    requires AllCame(w, wallet) && w'.moves == w.moves && w'.rows.Keys == w.rows.Keys
    requires forall j :: j in w'.jobs && NewToken(w'.jobs[j]).Some? ==>
               j in w.jobs && NewToken(w'.jobs[j]) == NewToken(w.jobs[j])
    ensures AllCame(w', wallet)
  {
    assert forall id :: id in w'.rows ==> id in w.rows;
  }

  lemma StartAllCame(env: Env, w: World, step: Step)
    requires Enabled(env, w, step) && AllCame(w, env.wallet)
    requires step.RegisterStart? || step.UpdateStart? || step.TransferStart?
    ensures AllCame(Apply(env, w, step), env.wallet)
  {
    ChainStays(env, w, step);
    DatabaseStays(env, w, step);
    FewerCame(w, Apply(env, w, step), env.wallet);
  }

  lemma StepAllCame(env: Env, w: World, step: Step)
    requires Enabled(env, w, step) && AllCame(w, env.wallet)
    ensures AllCame(Apply(env, w, step), env.wallet)
  {
    match step
    case Tx(job) => TxAllCame(env, w, job);
    case Outside(call) => CalledAllCame(w, call, env.wallet);
    case RegisterCommit(job, made, now) => RegisterAllCame(w, job, made, now, env.wallet);
    case UpdateCommit(job, now) => FewerCame(w, AfterUpdate(w, job, now), env.wallet);
    case TransferCommit(job, now) => FewerCame(w, AfterTransfer(w, job, now), env.wallet);
    case Fail(job) => FewerCame(w, w.(jobs := w.jobs - {job}), env.wallet);
    case GiveUp(job) => FewerCame(w, Apply(env, w, step), env.wallet);
    case _ => StartAllCame(env, w, step);
  }

  lemma {:induction false} RunAllCame(env: Env, start: int, steps: seq<Step>)
    requires IsRun(env, start, steps)
    ensures AllCame(Exec(env, start, steps).value, env.wallet)
  {
    if |steps| > 0 {
      var front := steps[..|steps| - 1];
      RunAllCame(env, start, front);
      StepAllCame(env, Exec(env, start, front).value, steps[|steps| - 1]);
    }
  }

  /** For a token that no transfer of the service has reached, the keys alone
      decide: that of the last document to land, and the last one accepted. */
  lemma KeptTokenAgreesIff(env: Env, start: int, steps: seq<Step>, id: string)
    requires IsRun(env, start, steps) && Custodial(Exec(env, start, steps).value, id)
    requires Departures(Exec(env, start, steps).value.moves, ScutUri.NumberOf(id), env.wallet) == 0
    ensures var w := Exec(env, start, steps).value;
            RowOnChain(env, w, id)
            <==> LastLandedIsLastAccepted(env, w.writes, w.history, id, ScutUri.NumberOf(id))
  {
    AgreementIff(env, start, steps, id);
    RunAllCame(env, start, steps);
    TransferBalance(env, start, steps, ScutUri.NumberOf(id));
    assert Came(Exec(env, start, steps).value, ScutUri.NumberOf(id), env.wallet);
  }

  // ---- What one lost or late receipt costs, and what repairs it ----

  /** At the end of any run: the handler of this job fails after its
      transaction. */
  lemma Loses(env: Env, start: int, steps: seq<Step>, job: nat)
    requires IsRun(env, start, steps) && TxEnabled(env, Exec(env, start, steps).value, job)
    ensures IsRun(env, start, steps + [Tx(job)] + [Fail(job)])
    ensures var w, lost := Exec(env, start, steps).value, Exec(env, start, steps + [Tx(job)] + [Fail(job)]).value;
            && lost.rows == w.rows && lost.jobs == w.jobs - {job}
            && lost.chain == Effect(w.chain, TxCall(env, w.jobs[job]).value).value
  {
    Then(env, start, steps, Tx(job));
    Then(env, start, steps + [Tx(job)], Fail(job));
    var w := Exec(env, start, steps).value;
    assert Exec(env, start, steps + [Tx(job)] + [Fail(job)]).value.jobs == w.jobs - {job};
  }

  /** After any run, losing sight of an update leaves database and chain in
      agreement exactly when its document carries no other key. */
  lemma LostUpdate(env: Env, start: int, steps: seq<Step>, job: nat, id: string)
    requires ValidEnv(env) && IsRun(env, start, steps) && Custodial(Exec(env, start, steps).value, id)
    requires TxEnabled(env, Exec(env, start, steps).value, job)
    requires Exec(env, start, steps).value.jobs[job].UpdateSigned?
    requires Exec(env, start, steps).value.jobs[job].tokenId == id
    ensures IsRun(env, start, steps + [Tx(job)] + [Fail(job)])
    ensures var w, lost := Exec(env, start, steps).value, Exec(env, start, steps + [Tx(job)] + [Fail(job)]).value;
            && Custodial(lost, id)
            && (RowOnChain(env, lost, id) <==>
                  !Carried(w.jobs[job].doc.signingKey) || w.jobs[job].doc.signingKey == KeyOf(w, id))
  {
    Loses(env, start, steps, job);
    var doc := Exec(env, start, steps).value.jobs[job].doc;
    assert env.decode(env.encode(doc)) == Some(doc);
  }

  /** And losing sight of a transfer exactly when the token stays with the
      wallet and they agreed before. */
  lemma LostTransfer(env: Env, start: int, steps: seq<Step>, job: nat, id: string)
    requires IsRun(env, start, steps) && Custodial(Exec(env, start, steps).value, id)
    requires TxEnabled(env, Exec(env, start, steps).value, job)
    requires Exec(env, start, steps).value.jobs[job].TransferSigned?
    requires Exec(env, start, steps).value.jobs[job].tokenId == id
    ensures IsRun(env, start, steps + [Tx(job)] + [Fail(job)])
    ensures var w, lost := Exec(env, start, steps).value, Exec(env, start, steps + [Tx(job)] + [Fail(job)]).value;
            && Custodial(lost, id)
            && (RowOnChain(env, lost, id) <==> w.jobs[job].newOwner == env.wallet && RowOnChain(env, w, id))
  {
    Loses(env, start, steps, job);
    RunWrites(env, start, steps, ScutUri.NumberOf(id));
    RunKeeps(env, start, steps);
    assert TokenText(Exec(env, start, steps).value.chain, id);
  }

  /** An update that lands and is accepted at once repairs whatever was wrong
      before. */
  lemma UpdateRepairs(env: Env, start: int, steps: seq<Step>, job: nat, now: int, id: string)
    requires ValidEnv(env) && IsRun(env, start, steps) && Custodial(Exec(env, start, steps).value, id)
    requires TxEnabled(env, Exec(env, start, steps).value, job)
    requires Exec(env, start, steps).value.jobs[job].UpdateSigned?
    requires Exec(env, start, steps).value.jobs[job].tokenId == id
    ensures var done := steps + [Tx(job)] + [UpdateCommit(job, now)];
            && IsRun(env, start, done) && Custodial(Exec(env, start, done).value, id)
            && RowOnChain(env, Exec(env, start, done).value, id)
  {
    Then(env, start, steps, Tx(job));
    Then(env, start, steps + [Tx(job)], UpdateCommit(job, now));
    var doc := Exec(env, start, steps).value.jobs[job].doc;
    assert env.decode(env.encode(doc)) == Some(doc);
  }
}
