/** What the registration service does, against what it was asked and by whom:
    every transaction of its wallet and every answer it gives goes back to a
    request that was granted, and which requests are granted is decided by what it
    answered before. */
module RegisterRequests {
  import opened Basics
  import opened Strings
  import opened Contract
  import opened RegisterDb
  import opened RegisterMachine
  import opened RegisterRuns
  import opened KeySuccession
  import ScutUri

  predicate Starts(step: Step, job: nat) {
    (step.RegisterStart? || step.UpdateStart? || step.TransferStart?) && step.job == job
  }

  predicate Ends(step: Step, job: nat) {
    (step.RegisterCommit? || step.UpdateCommit? || step.TransferCommit? || step.Fail?) && step.job == job
  }

  // ---- Which requests are granted ----

  predicate GivenAway(history: seq<Entry>, id: string) {
    exists i :: 0 <= i < |history| && history[i] == Released(id)
  }

  /** Who may still dispose of a token: the holder of the key in force, as long as
      the token was registered and never given away. */
  function Holder(history: seq<Entry>, id: string): Option<string> {
    if GivenAway(history, id) then None else KeyInForce(history, id)
  }

  /** A holder's signature on a transfer to this owner. */
  predicate SignsTransfer(env: Env, key: string, id: string, newOwner: string, signature: string) {
    env.signsText(key, TransferChallenge(id, newOwner), signature) == Valid
  }

  /** A name nobody registered under in the 24 hours before. */
  predicate NameIsFree(rows: Registrations, name: Option<string>, asked: int) {
    name.Some? ==> forall id :: id in rows && rows[id].displayName == name ==> rows[id].createdAt < asked - 86_400
  }

  /** The requests that go ahead. */
  predicate Granted(env: Env, w: World, step: Step) {
    match step
    case RegisterStart(_, r, asked, now) =>
      NameIsFree(w.rows, r.displayName, asked) && CountOn(w.counts, Day(now)) < env.globalPerDay
    case UpdateStart(_, id, doc, signature) => SignedBy(env, Holder(w.history, id), id, doc, signature)
    case TransferStart(_, id, newOwner, signature) =>
      && ScutUri.IsAddress(newOwner) && Holder(w.history, id).Some?
      && SignsTransfer(env, Holder(w.history, id).value, id, ScutUri.Lower(newOwner), signature)
    case _ => false
  }

  /** The database keeps custody of exactly the tokens that were never given
      away. */
  predicate CustodyStored(w: World, id: string) {
    id in w.rows ==> (w.rows[id].custodial <==> !GivenAway(w.history, id))
  }

  lemma NextGivenAway(history: seq<Entry>, entry: Entry, id: string)
    ensures GivenAway(history + [entry], id) <==> GivenAway(history, id) || entry == Released(id)
  {
    var h := history + [entry];
    if i :| 0 <= i < |history| && history[i] == Released(id) {
      assert h[i] == Released(id);
    }
    if entry == Released(id) {
      assert h[|history|] == Released(id);
    }
  }

  /** Only what was registered is given away. */
  predicate KnownGivenAway(w: World, id: string) {
    GivenAway(w.history, id) ==> id in w.rows
  }

  lemma AnswerCustody(w: World, w': World, entry: Entry, id: string)
    requires CustodyStored(w, id) && KnownGivenAway(w, id) && w'.history == w.history + [entry]
    requires id in w.rows ==> id in w'.rows
    requires entry == Released(id) ==> id in w'.rows && !w'.rows[id].custodial
    requires entry != Released(id) && id in w.rows ==> w'.rows[id].custodial == w.rows[id].custodial
    requires entry != Released(id) && id !in w.rows && id in w'.rows ==> w'.rows[id].custodial
    ensures CustodyStored(w', id) && KnownGivenAway(w', id)
  {
    NextGivenAway(w.history, entry, id);
  }

  lemma RegisterCustody(w: World, job: nat, made: int, now: int, id: string)
    requires WellKept(w) && CustodyStored(w, id) && KnownGivenAway(w, id) && job in w.jobs && w.jobs[job].Rewritten?
    ensures CustodyStored(AfterRegister(w, job, made, now), id) && KnownGivenAway(AfterRegister(w, job, made, now), id)
  {
    CommitKeeps(w, job, made, now);
    var r := w.jobs[job];
    AnswerCustody(w, AfterRegister(w, job, made, now),
                  Registered(ScutUri.Decimal(r.token), r.request.signingKey, made, now), id);
  }

  lemma UpdateCustody(w: World, job: nat, now: int, id: string)
    requires CustodyStored(w, id) && KnownGivenAway(w, id) && job in w.jobs && w.jobs[job].UpdateWritten?
    ensures CustodyStored(AfterUpdate(w, job, now), id) && KnownGivenAway(AfterUpdate(w, job, now), id)
  {
    var j := w.jobs[job];
    AnswerCustody(w, AfterUpdate(w, job, now), Updated(j.tokenId, j.doc, j.signature, CheckedAt(w, job)), id);
  }

  lemma TransferCustody(w: World, job: nat, now: int, id: string)
    requires WellKept(w) && CustodyStored(w, id) && KnownGivenAway(w, id) && job in w.jobs && w.jobs[job].Moved?
    ensures CustodyStored(AfterTransfer(w, job, now), id) && KnownGivenAway(AfterTransfer(w, job, now), id)
  {
    assert JobFits(w, w.jobs[job]);
    AnswerCustody(w, AfterTransfer(w, job, now), Released(w.jobs[job].tokenId), id);
  }

  lemma StepCustodyStored(env: Env, w: World, step: Step, id: string)
    requires WellKept(w) && CustodyStored(w, id) && KnownGivenAway(w, id) && Enabled(env, w, step)
    ensures CustodyStored(Apply(env, w, step), id) && KnownGivenAway(Apply(env, w, step), id)
  {
    match step
    case RegisterCommit(job, made, now) => RegisterCustody(w, job, made, now, id);
    case UpdateCommit(job, now) => UpdateCustody(w, job, now, id);
    case TransferCommit(job, now) => TransferCustody(w, job, now, id);
    case _ => DatabaseStays(env, w, step);
  }

  lemma {:induction false} CustodyByHistory(env: Env, start: int, steps: seq<Step>, id: string)
    requires IsRun(env, start, steps)
    ensures CustodyStored(Exec(env, start, steps).value, id) && KnownGivenAway(Exec(env, start, steps).value, id)
  {
    if |steps| > 0 {
      var front := steps[..|steps| - 1];
      CustodyByHistory(env, start, front, id);
      RunKeeps(env, start, front);
      StepCustodyStored(env, Exec(env, start, front).value, steps[|steps| - 1], id);
    }
  }

  /** The holder is whoever the database says, after any run. */
  lemma HolderStored(env: Env, start: int, steps: seq<Step>, id: string)
    requires IsRun(env, start, steps)
    ensures var w := Exec(env, start, steps).value;
            && Holder(w.history, id) == (if id in w.rows && w.rows[id].custodial then KeyOf(w, id) else None)
            && (KeyInForce(w.history, id).Some? <==> id in w.rows)
            && (id in w.rows ==> ScutUri.IsNumeral(id) && (w.rows[id].custodial <==> !GivenAway(w.history, id)))
  {
    CustodyByHistory(env, start, steps, id);
    DatabaseHoldsLastKey(env, start, steps, id);
    RunKeeps(env, start, steps);
    assert id in Exec(env, start, steps).value.rows ==> TokenText(Exec(env, start, steps).value.chain, id);
  }

  lemma NameFree(rows: Registrations, name: Option<string>, asked: int)
    ensures NameIsFree(rows, name, asked)
            <==> name.None? || |NamedSince(rows, name.value, asked - DAY_SECONDS)| == 0
  {
    if name.Some? {
      var named := NamedSince(rows, name.value, asked - DAY_SECONDS);
      assert forall id :: id in named ==> id in rows && rows[id].createdAt >= asked - 86_400;
      if |named| == 0 {
        assert named == {};
        assert forall id :: id in rows && rows[id].displayName == name && rows[id].createdAt >= asked - 86_400 ==>
                 id in named;
      } else {
        var id :| id in named;
      }
    }
  }

  /** The handler does what this request asks. */
  predicate AskedBy(env: Env, step: Step, job: Job) {
    match job
    case Minting(r) => step.RegisterStart? && step.request == r
    case Minted(r, _) => step.RegisterStart? && step.request == r
    case Rewritten(r, _) => step.RegisterStart? && step.request == r
    case UpdateSigned(id, doc, signature) => AsksUpdate(step, id, doc, signature)
    case UpdateWritten(id, doc, signature) => AsksUpdate(step, id, doc, signature)
    case TransferSigned(id, newOwner) => AsksTransfer(step, id, newOwner)
    case Moved(id, newOwner) => AsksTransfer(step, id, newOwner)
    case Forgotten(call) => AsksCall(env, step, call)
    case Spent => true
  }

  predicate AsksUpdate(step: Step, id: string, doc: Doc, signature: string) {
    step.UpdateStart? && step.tokenId == id && step.doc == doc && step.signature == signature
  }

  predicate AsksTransfer(step: Step, id: string, newOwner: string) {
    step.TransferStart? && step.tokenId == id && ScutUri.Lower(step.newOwner) == newOwner
  }

  /** The transactions that a request stands for: a mint to the wallet and the
      document of the new token, with both keys of the request; the document of an
      update, for the token it names; a transfer of that token from the wallet to
      the owner it names. */
  predicate AsksCall(env: Env, step: Step, call: Call) {
    match call
    case Mint(recipient, uri, received) =>
      step.RegisterStart? && recipient == env.wallet && uri == "data:application/json;base64,e30=" && received
    case UpdateIdentityURI(caller, token, uri) =>
      && caller == env.wallet
      && if step.UpdateStart? then
           && ScutUri.IsNumeral(step.tokenId) && ScutUri.NumberOf(step.tokenId) == token
           && uri == env.encode(step.doc)
         else
           && step.RegisterStart?
           && uri == env.encode(Doc(Some(ScutUri.Decimal(token)), Some(step.request.signingKey),
                                    Some(step.request.encryptionKey), step.request.rest))
    case TransferFrom(caller, token, source, recipient) =>
      && step.TransferStart? && caller == source == env.wallet
      && ScutUri.IsNumeral(step.tokenId) && ScutUri.NumberOf(step.tokenId) == token
      && recipient == ScutUri.Lower(step.newOwner)
    case _ => false
  }

  /** A request goes ahead exactly when it is granted, and leaves everything else as
      it was. */
  predicate Takes(env: Env, w: World, step: Step, w': World)
    requires step.RegisterStart? || step.UpdateStart? || step.TransferStart?
  {
    && (step.job in w'.jobs <==> Granted(env, w, step))
    && (Granted(env, w, step) ==> AskedBy(env, step, w'.jobs[step.job]))
    && w'.rows == w.rows && w'.counts == w.counts && w'.chain == w.chain && w'.history == w.history
  }

  lemma RegisterTakes(env: Env, w: World, job: nat, r: Request, asked: int, now: int)
    requires job !in w.jobs
    ensures Takes(env, w, RegisterStart(job, r, asked, now), AfterRegisterStart(env, w, job, r, asked, now))
  {
    NameFree(w.rows, r.displayName, asked);
  }

  lemma UpdateTakes(env: Env, w: World, job: nat, id: string, doc: Doc, signature: string)
    requires job !in w.jobs && (id in w.rows ==> ScutUri.IsNumeral(id))
    requires Holder(w.history, id) == if id in w.rows && w.rows[id].custodial then KeyOf(w, id) else None
    ensures Takes(env, w, UpdateStart(job, id, doc, signature), AfterUpdateStart(env, w, job, id, doc, signature))
  {
  }

  lemma TransferTakes(env: Env, w: World, job: nat, id: string, newOwner: string, signature: string)
    requires job !in w.jobs && (id in w.rows ==> ScutUri.IsNumeral(id))
    requires Holder(w.history, id) == if id in w.rows && w.rows[id].custodial then KeyOf(w, id) else None
    ensures Takes(env, w, TransferStart(job, id, newOwner, signature),
                  AfterTransferStart(env, w, job, id, newOwner, signature))
  {
  }

  lemma GrantedIff(env: Env, start: int, steps: seq<Step>, step: Step)
    requires IsRun(env, start, steps) && Enabled(env, Exec(env, start, steps).value, step)
    requires step.RegisterStart? || step.UpdateStart? || step.TransferStart?
    ensures Takes(env, Exec(env, start, steps).value, step, Apply(env, Exec(env, start, steps).value, step))
  {
    var w := Exec(env, start, steps).value;
    match step
    case RegisterStart(job, r, asked, now) => RegisterTakes(env, w, job, r, asked, now);
    case UpdateStart(job, id, doc, signature) =>
      HolderStored(env, start, steps, id);
      UpdateTakes(env, w, job, id, doc, signature);
    case TransferStart(job, id, newOwner, signature) =>
      HolderStored(env, start, steps, id);
      TransferTakes(env, w, job, id, newOwner, signature);
  }

  /** What the others are told, by what was answered before: a transfer; */
  lemma TransferAnswer(env: Env, start: int, steps: seq<Step>, id: string, newOwner: string, signature: string)
    requires IsRun(env, start, steps)
    ensures var w := Exec(env, start, steps).value;
            var key, status := KeyInForce(w.history, id), TransferRefusal(env, w, id, newOwner, signature);
            var wellFormed := ScutUri.IsNumeral(id) && ScutUri.IsAddress(newOwner);
            && (status == 400 <==> !wellFormed)
            && (status == 404 <==> wellFormed && key.None?)
            && (status == 409 <==> wellFormed && key.Some? && GivenAway(w.history, id))
            && (status == 0 || status == 401 || status == 500 <==>
                  wellFormed && key.Some? && !GivenAway(w.history, id))
            && (status == 0 ==> SignsTransfer(env, key.value, id, ScutUri.Lower(newOwner), signature))
            && (status == 401 ==>
                  env.signsText(key.value, TransferChallenge(id, ScutUri.Lower(newOwner)), signature) == Invalid)
            && (status == 500 ==>
                  env.signsText(key.value, TransferChallenge(id, ScutUri.Lower(newOwner)), signature) == Throws)
  {
    HolderStored(env, start, steps, id);
    DatabaseHoldsLastKey(env, start, steps, id);
  }

  /** an update. */
  lemma UpdateAnswer(env: Env, start: int, steps: seq<Step>, id: string, doc: Doc, signature: string)
    requires IsRun(env, start, steps)
    ensures var w := Exec(env, start, steps).value;
            var key, status := KeyInForce(w.history, id), UpdateRefusal(env, w, id, doc, signature);
            var kept := key.Some? && !GivenAway(w.history, id);
            && (status == 404 <==> ScutUri.IsNumeral(id) && key.None?)
            && (status == 409 <==> key.Some? && GivenAway(w.history, id))
            && (status == 401 <==> kept && env.signsDoc(key.value, doc, signature) == Invalid)
            && (status == 0 <==> kept && env.signsDoc(key.value, doc, signature) == Valid && doc.tokenId == Some(id))
            && (status == 400 <==>
                  || !ScutUri.IsNumeral(id)
                  || (kept && env.signsDoc(key.value, doc, signature) == Throws)
                  || (kept && env.signsDoc(key.value, doc, signature) == Valid && doc.tokenId != Some(id)))
  {
    HolderStored(env, start, steps, id);
    DatabaseHoldsLastKey(env, start, steps, id);
  }

  /** And a registration: by the names in the database and the count of the day. */
  lemma RegisterAnswer(env: Env, w: World, r: Request, asked: int, now: int)
    ensures var status := RegisterRefusal(env, w, r, asked, now);
            && (status == 429 <==> !NameIsFree(w.rows, r.displayName, asked))
            && (status == 503 <==>
                  NameIsFree(w.rows, r.displayName, asked) && CountOn(w.counts, Day(now)) >= env.globalPerDay)
            && (status == 0 <==>
                  NameIsFree(w.rows, r.displayName, asked) && CountOn(w.counts, Day(now)) < env.globalPerDay)
  {
    NameFree(w.rows, r.displayName, asked);
  }

  // ---- Every handler goes back to a granted request ----

  lemma StepAsked(env: Env, w: World, step: Step, asked: Step, job: nat)
    requires Enabled(env, w, step) && job in w.jobs && job in Apply(env, w, step).jobs
    requires AskedBy(env, asked, w.jobs[job])
    ensures AskedBy(env, asked, Apply(env, w, step).jobs[job]) && !Ends(step, job)
  {
  }

  lemma NewJobStarts(env: Env, w: World, step: Step, job: nat)
    requires Enabled(env, w, step) && job !in w.jobs && job in Apply(env, w, step).jobs
    ensures Starts(step, job)
  {
  }

  lemma GrantedAt(env: Env, start: int, steps: seq<Step>, m: nat, job: nat)
    requires IsRun(env, start, steps) && m < |steps| && Starts(steps[m], job)
    requires job in WorldAt(env, start, steps, m + 1).jobs
    ensures Granted(env, WorldAt(env, start, steps, m), steps[m])
    ensures AskedBy(env, steps[m], WorldAt(env, start, steps, m + 1).jobs[job])
  {
    StepAt(env, start, steps, m);
    PrefixIsRun(env, start, steps, m);
    GrantedIff(env, start, steps[..m], steps[m]);
  }

  /** The request that a handler was started by; nothing has ended it since. */
  lemma {:induction false} RequestBefore(env: Env, start: int, steps: seq<Step>, n: nat, job: nat) returns (m: nat)
    requires IsRun(env, start, steps) && n <= |steps| && job in WorldAt(env, start, steps, n).jobs
    ensures m < n && Starts(steps[m], job) && Granted(env, WorldAt(env, start, steps, m), steps[m])
    ensures AskedBy(env, steps[m], WorldAt(env, start, steps, n).jobs[job])
    ensures forall k :: m < k < n ==> !Ends(steps[k], job)
    decreases n
  {
    StepAt(env, start, steps, n - 1);
    var w := WorldAt(env, start, steps, n - 1);
    if job in w.jobs {
      m := RequestBefore(env, start, steps, n - 1, job);
      StepAsked(env, w, steps[n - 1], steps[m], job);
    } else {
      m := n - 1;
      NewJobStarts(env, w, steps[m], job);
      GrantedAt(env, start, steps, m, job);
    }
  }

  lemma JobCall(env: Env, asked: Step, job: Job)
    requires AskedBy(env, asked, job) && TxCall(env, job).Some?
    ensures AsksCall(env, asked, TxCall(env, job).value)
  {
  }

  /** In every run, every transaction of the service's wallet, also one that its
      handler gave up waiting for, is one that a request stands for which was
      granted before. */
  lemma TransactionsAreRequested(env: Env, start: int, steps: seq<Step>, n: nat) returns (m: nat)
    requires IsRun(env, start, steps) && n < |steps| && steps[n].Tx?
    ensures TxEnabled(env, WorldAt(env, start, steps, n), steps[n].job)
    ensures m < n && Starts(steps[m], steps[n].job) && Granted(env, WorldAt(env, start, steps, m), steps[m])
    ensures AsksCall(env, steps[m], TxCall(env, WorldAt(env, start, steps, n).jobs[steps[n].job]).value)
    ensures forall k :: m < k < n ==> !Ends(steps[k], steps[n].job)
  {
    StepAt(env, start, steps, n);
    m := RequestBefore(env, start, steps, n, steps[n].job);
    JobCall(env, steps[m], WorldAt(env, start, steps, n).jobs[steps[n].job]);
  }

  /** No token leaves the wallet but by a transfer that its holder signed, to the
      owner he named: whoever held the key in force when he asked. */
  lemma TransfersAreSigned(env: Env, start: int, steps: seq<Step>, n: nat) returns (m: nat)
    requires IsRun(env, start, steps) && n < |steps| && steps[n].Tx?
    requires TxEnabled(env, WorldAt(env, start, steps, n), steps[n].job)
    requires TxCall(env, WorldAt(env, start, steps, n).jobs[steps[n].job]).value.TransferFrom?
    ensures m < n && steps[m].TransferStart? && steps[m].job == steps[n].job
    ensures var id, newOwner, key := steps[m].tokenId, ScutUri.Lower(steps[m].newOwner),
                                     KeyInForce(WorldAt(env, start, steps, m).history, steps[m].tokenId);
            && ScutUri.IsNumeral(id) && ScutUri.IsAddress(steps[m].newOwner)
            && TxCall(env, WorldAt(env, start, steps, n).jobs[steps[n].job])
               == Some(TransferFrom(env.wallet, ScutUri.NumberOf(id), env.wallet, newOwner))
            && key.Some? && SignsTransfer(env, key.value, id, newOwner, steps[m].signature)
  {
    m := TransactionsAreRequested(env, start, steps, n);
  }

  lemma {:induction false} SplitsAtColon(a: string, b: string, x: string, y: string)
    requires ':' !in a && ':' !in b && a + [':'] + x == b + [':'] + y
    ensures a == b && x == y
  {
    IndexOfAfter(a, ':', x);
    IndexOfAfter(b, ':', y);
    var s := a + [':'] + x;
    assert s[..|a|] == a && s[|a| + 1..] == x;
    assert s[..|b|] == b && s[|b| + 1..] == y;
  }

  /** One signed challenge speaks of one token and one owner. */
  lemma TransferChallengeCanonical(id1: string, owner1: string, id2: string, owner2: string)
    requires ScutUri.IsNumeral(id1) && ScutUri.IsNumeral(id2)
    ensures TransferChallenge(id1, owner1) == TransferChallenge(id2, owner2) <==> id1 == id2 && owner1 == owner2
  {
    if TransferChallenge(id1, owner1) == TransferChallenge(id2, owner2) {
      SplitsAtColon("scut/v1/transfer", "scut/v1/transfer", id1 + [':'] + owner1, id2 + [':'] + owner2);
      ScutUri.NumeralPlain(id1, ':');
      ScutUri.NumeralPlain(id2, ':');
      SplitsAtColon(id1, id2, owner1, owner2);
    }
  }

  // ---- Every answer goes back to a request, and to a transaction that landed ----

  predicate HasLanded(job: Job) {
    job.Minted? || job.Rewritten? || job.UpdateWritten? || job.Moved? || job.Spent?
  }

  lemma StepLands(env: Env, w: World, step: Step, job: nat)
    requires Enabled(env, w, step) && job in Apply(env, w, step).jobs && HasLanded(Apply(env, w, step).jobs[job])
    ensures job in w.jobs && !Starts(step, job)
    ensures step == Tx(job) || w.jobs[job] == Apply(env, w, step).jobs[job]
  {
  }

  predicate Untouched(steps: seq<Step>, lo: nat, hi: nat, job: nat)
    requires hi <= |steps|
  {
    forall k :: lo <= k < hi ==> !Starts(steps[k], job)
  }

  /** The transaction that brought a handler where it is. */
  lemma {:induction false} LandedAt(env: Env, start: int, steps: seq<Step>, n: nat, job: nat) returns (t: nat)
    requires IsRun(env, start, steps) && n <= |steps| && job in WorldAt(env, start, steps, n).jobs
    requires HasLanded(WorldAt(env, start, steps, n).jobs[job])
    ensures t < n && steps[t] == Tx(job) && job in WorldAt(env, start, steps, t + 1).jobs
    ensures WorldAt(env, start, steps, t + 1).jobs[job] == WorldAt(env, start, steps, n).jobs[job]
    ensures Untouched(steps, t, n, job)
    decreases n
  {
    StepAt(env, start, steps, n - 1);
    StepLands(env, WorldAt(env, start, steps, n - 1), steps[n - 1], job);
    if steps[n - 1] == Tx(job) {
      t := n - 1;
    } else {
      t := LandedAt(env, start, steps, n - 1, job);
    }
  }

  /** What the service wrote down, against the request: the row of a registration;
      the keys an update carries; the custody given up. */
  predicate RowFits(w: World, w': World, asked: Step, entry: Entry) {
    match entry
    case Registered(id, key, made, _) =>
      && asked.RegisterStart? && id !in w.rows && id in w'.rows && key == asked.request.signingKey
      && w'.rows[id] == Row(asked.request.signingKey, asked.request.encryptionKey, asked.request.displayName, true,
                            made, made)
    case Updated(id, doc, signature, _) =>
      && AsksUpdate(asked, id, doc, signature) && id in w.rows && id in w'.rows
      && w'.rows[id].ed25519PublicKey == (if Carried(doc.signingKey) then doc.signingKey.value
                                          else w.rows[id].ed25519PublicKey)
      && w'.rows[id].x25519PublicKey == (if Carried(doc.encryptionKey) then doc.encryptionKey.value
                                         else w.rows[id].x25519PublicKey)
      && w'.rows[id].displayName == w.rows[id].displayName && w'.rows[id].custodial == w.rows[id].custodial
      && w'.rows[id].createdAt == w.rows[id].createdAt
    case Released(id) =>
      && asked.TransferStart? && asked.tokenId == id && id in w.rows && id in w'.rows
      && w'.rows[id] == w.rows[id].(custodial := false, updatedAt := w'.rows[id].updatedAt)
  }

  /** What the transaction left on the chain, against the request. */
  predicate ChainFits(env: Env, c: Chain, asked: Step, entry: Entry) {
    && ScutUri.IsNumeral(entry.tokenId)
    && var token := ScutUri.NumberOf(entry.tokenId);
       match entry
       case Registered(id, key, _, _) =>
         && asked.RegisterStart? && token in c.uris
         && c.uris[token] == env.encode(Doc(Some(id), Some(key), Some(asked.request.encryptionKey), asked.request.rest))
       case Updated(_, doc, _, _) => token in c.uris && c.uris[token] == env.encode(doc)
       case Released(_) =>
         asked.TransferStart? && token in c.owners && c.owners[token] == ScutUri.Lower(asked.newOwner)
  }

  /** The answer is the step's, and the other rows are as they were. */
  predicate Answers(w: World, w': World, asked: Step, entry: Entry) {
    && w'.history == w.history + [entry]
    && RowFits(w, w', asked, entry)
    && w'.rows - {entry.tokenId} == w.rows - {entry.tokenId}
  }

  lemma RegisterAnswers(env: Env, w: World, job: nat, made: int, now: int, asked: Step)
    requires WellKept(w) && job in w.jobs && w.jobs[job].Rewritten? && AskedBy(env, asked, w.jobs[job])
    ensures var w', j := AfterRegister(w, job, made, now), w.jobs[job];
            Answers(w, w', asked, Registered(ScutUri.Decimal(j.token), j.request.signingKey, made, now))
  {
    CommitKeeps(w, job, made, now);
    var id := ScutUri.Decimal(w.jobs[job].token);
    assert AfterRegister(w, job, made, now).rows - {id} == w.rows - {id};
  }

  lemma UpdateAnswers(env: Env, w: World, job: nat, now: int, asked: Step)
    requires WellKept(w) && job in w.jobs && w.jobs[job].UpdateWritten? && AskedBy(env, asked, w.jobs[job])
    ensures var w', j := AfterUpdate(w, job, now), w.jobs[job];
            Answers(w, w', asked, Updated(j.tokenId, j.doc, j.signature, CheckedAt(w, job)))
  {
    assert JobFits(w, w.jobs[job]);
    var id := w.jobs[job].tokenId;
    assert AfterUpdate(w, job, now).rows - {id} == w.rows - {id};
  }

  lemma TransferAnswers(env: Env, w: World, job: nat, now: int, asked: Step)
    requires WellKept(w) && job in w.jobs && w.jobs[job].Moved? && AskedBy(env, asked, w.jobs[job])
    ensures Answers(w, AfterTransfer(w, job, now), asked, Released(w.jobs[job].tokenId))
  {
    assert JobFits(w, w.jobs[job]);
    var id := w.jobs[job].tokenId;
    assert AfterTransfer(w, job, now).rows - {id} == w.rows - {id};
  }

  /** What a commit answers. */
  function AnswerOf(w: World, step: Step): Entry
    requires Commits(step) && step.job in w.jobs
    requires step.RegisterCommit? ==> w.jobs[step.job].Rewritten?
    requires step.UpdateCommit? ==> w.jobs[step.job].UpdateWritten?
    requires step.TransferCommit? ==> w.jobs[step.job].Moved?
  {
    match step
    case RegisterCommit(job, made, now) =>
      Registered(ScutUri.Decimal(w.jobs[job].token), w.jobs[job].request.signingKey, made, now)
    case UpdateCommit(job, _) =>
      Updated(w.jobs[job].tokenId, w.jobs[job].doc, w.jobs[job].signature, CheckedAt(w, job))
    case TransferCommit(job, _) => Released(w.jobs[job].tokenId)
  }

  lemma CommitAnswers(env: Env, w: World, step: Step, asked: Step)
    requires WellKept(w) && Enabled(env, w, step) && Commits(step) && AskedBy(env, asked, w.jobs[step.job])
    ensures Answers(w, Apply(env, w, step), asked, AnswerOf(w, step))
  {
    match step
    case RegisterCommit(job, made, now) => RegisterAnswers(env, w, job, made, now, asked);
    case UpdateCommit(job, now) => UpdateAnswers(env, w, job, now, asked);
    case TransferCommit(job, now) => TransferAnswers(env, w, job, now, asked);
  }

  /** A transaction has just brought a handler where its answer will leave it. */
  predicate Landed(env: Env, c: Chain, job: Job) {
    match job
    case Rewritten(r, token) => token in c.uris && c.uris[token] == env.encode(RegisteredDoc(r, token))
    case UpdateWritten(id, doc, _) =>
      ScutUri.IsNumeral(id) && ScutUri.NumberOf(id) in c.uris && c.uris[ScutUri.NumberOf(id)] == env.encode(doc)
    case Moved(id, newOwner) =>
      ScutUri.IsNumeral(id) && ScutUri.NumberOf(id) in c.owners && c.owners[ScutUri.NumberOf(id)] == newOwner
    case _ => true
  }

  lemma TxLanded(env: Env, v: World, job: nat)
    requires TxEnabled(env, v, job)
    ensures Landed(env, AfterTxStep(env, v, job).chain, AfterTxStep(env, v, job).jobs[job])
  {
  }

  lemma LandedFits(env: Env, c: Chain, w: World, step: Step, asked: Step)
    requires Enabled(env, w, step) && Commits(step) && AskedBy(env, asked, w.jobs[step.job])
    requires Landed(env, c, w.jobs[step.job])
    ensures ChainFits(env, c, asked, AnswerOf(w, step))
  {
    if step.RegisterCommit? {
      assert ScutUri.NumberOf(ScutUri.Decimal(w.jobs[step.job].token)) == w.jobs[step.job].token;
    }
  }

  /** In every run, every answer that closes a request is about that request, which
      was granted, and whose transaction has landed since; the database then holds
      what the request said, and the chain held it when that landed. */
  lemma AnswersAreRequested(env: Env, start: int, steps: seq<Step>, n: nat) returns (m: nat, t: nat)
    requires IsRun(env, start, steps) && n < |steps| && Commits(steps[n])
    ensures m < n && Starts(steps[m], steps[n].job) && Granted(env, WorldAt(env, start, steps, m), steps[m])
    ensures m < t < n && steps[t] == Tx(steps[n].job)
    ensures var w, w' := WorldAt(env, start, steps, n), WorldAt(env, start, steps, n + 1);
            && |w'.history| == |w.history| + 1
            && Answers(w, w', steps[m], w'.history[|w.history|])
            && ChainFits(env, WorldAt(env, start, steps, t + 1).chain, steps[m], w'.history[|w.history|])
  {
    var job := steps[n].job;
    StepAt(env, start, steps, n);
    m := RequestBefore(env, start, steps, n, job);
    t := LandedAt(env, start, steps, n, job);
    PrefixIsRun(env, start, steps, n);
    RunKeeps(env, start, steps[..n]);
    var w := WorldAt(env, start, steps, n);
    CommitAnswers(env, w, steps[n], steps[m]);
    StepAt(env, start, steps, t);
    TxLanded(env, WorldAt(env, start, steps, t), job);
    LandedFits(env, WorldAt(env, start, steps, t + 1).chain, w, steps[n], steps[m]);
    assert WorldAt(env, start, steps, n + 1).history[|w.history|] == AnswerOf(w, steps[n]);
  }

  /** Where an answer of the history was given. */
  lemma {:induction false} AnsweredAt(env: Env, start: int, steps: seq<Step>, i: nat) returns (n: nat)
    requires IsRun(env, start, steps) && i < |Exec(env, start, steps).value.history|
    ensures n < |steps| && Commits(steps[n])
    ensures |WorldAt(env, start, steps, n).history| == i
    ensures |WorldAt(env, start, steps, n + 1).history| == i + 1
    ensures WorldAt(env, start, steps, n + 1).history[i] == Exec(env, start, steps).value.history[i]
  {
    var last := |steps| - 1;
    var front := steps[..last];
    assert steps[..|steps|] == steps;
    OneAnswer(env, Exec(env, start, front).value, steps[last]);
    if i < |Exec(env, start, front).value.history| {
      n := AnsweredAt(env, start, front, i);
      assert front[..n] == steps[..n] && front[..n + 1] == steps[..n + 1];
    } else {
      n := last;
    }
  }

  lemma OneAnswer(env: Env, w: World, step: Step)
    requires Enabled(env, w, step)
    ensures var h := Apply(env, w, step).history;
            && |w.history| <= |h| <= |w.history| + 1 && h[..|w.history|] == w.history
            && (|h| > |w.history| ==> Commits(step))
  {
  }

  /** Whenever the service has said that it gave a token away, the holder of the key
      in force had signed that, for the owner it then went to. */
  lemma ReleasesAreSigned(env: Env, start: int, steps: seq<Step>, i: nat, id: string) returns (m: nat, t: nat)
    requires IsRun(env, start, steps) && i < |Exec(env, start, steps).value.history|
    requires Exec(env, start, steps).value.history[i] == Released(id)
    ensures m < t < |steps| && steps[m].TransferStart? && steps[m].tokenId == id && steps[t] == Tx(steps[m].job)
    ensures var key := KeyInForce(WorldAt(env, start, steps, m).history, id);
            key.Some? && SignsTransfer(env, key.value, id, ScutUri.Lower(steps[m].newOwner), steps[m].signature)
    ensures ScutUri.IsNumeral(id) && ScutUri.NumberOf(id) in WorldAt(env, start, steps, t + 1).chain.owners
    ensures WorldAt(env, start, steps, t + 1).chain.owners[ScutUri.NumberOf(id)] == ScutUri.Lower(steps[m].newOwner)
  {
    var n := AnsweredAt(env, start, steps, i);
    m, t := AnswersAreRequested(env, start, steps, n);
  }
}
