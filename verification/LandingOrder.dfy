/** A schedule that keeps database and chain in agreement: the updates of a token
    are accepted in the order in which they land. */
module LandingOrder {
  import opened Basics
  import opened Contract
  import opened RegisterDb
  import opened RegisterMachine
  import opened RegisterRuns
  import opened ChainAgreement
  import ScutUri

  predicate Landed(job: Job, id: string) {
    job.UpdateWritten? && job.tokenId == id
  }

  predicate Leaving(job: Job, id: string) {
    job.Moved? && job.tokenId == id
  }

  /** q without x. */
  function Minus(q: seq<nat>, x: nat): seq<nat> {
    if |q| == 0 then []
    else if q[0] == x then Minus(q[1..], x)
    else [q[0]] + Minus(q[1..], x)
  }

  function NextWaiting(q: seq<nat>, w: World, step: Step, id: string): seq<nat> {
    match step
    case Tx(job) => if job in w.jobs && w.jobs[job].UpdateSigned? && w.jobs[job].tokenId == id then q + [job] else q
    case UpdateCommit(job, _) => Minus(q, job)
    case Fail(job) => Minus(q, job)
    case _ => q
  }

  /** The handlers whose update of the token has landed and is not accepted yet,
      in the order in which they landed. */
  function Waiting(env: Env, start: int, steps: seq<Step>, id: string): seq<nat>
    requires IsRun(env, start, steps)
    decreases |steps|
  {
    if |steps| == 0 then []
    else
      var front := steps[..|steps| - 1];
      NextWaiting(Waiting(env, start, front, id), Exec(env, start, front).value, steps[|steps| - 1], id)
  }

  /** The step accepts an update of the token before one that landed earlier, or
      gives up on a transaction for it. */
  predicate Disorder(w: World, q: seq<nat>, step: Step, id: string) {
    || (&& step.UpdateCommit? && step.job in w.jobs && Landed(w.jobs[step.job], id)
        && (q == [] || q[0] != step.job))
    || (step.Fail? && step.job in w.jobs && (Landed(w.jobs[step.job], id) || Leaving(w.jobs[step.job], id)))
    || (step.GiveUp? && step.job in w.jobs && OldToken(w.jobs[step.job]) == Some(id))
  }

  function WaitingAt(env: Env, start: int, steps: seq<Step>, n: nat, id: string): seq<nat>
    requires IsRun(env, start, steps) && n <= |steps|
  {
    PrefixIsRun(env, start, steps, n);
    Waiting(env, start, steps[..n], id)
  }

  predicate Orderly(env: Env, start: int, steps: seq<Step>, id: string)
    requires IsRun(env, start, steps)
  {
    forall n :: 0 <= n < |steps| ==>
      !Disorder(WorldAt(env, start, steps, n), WaitingAt(env, start, steps, n, id), steps[n], id)
  }

  /** What the last transaction of a registration left on the chain. */
  predicate NewOnChain(env: Env, c: Chain, job: Job) {
    && (NewToken(job).Some? ==> WalletOwns(env, c, NewToken(job).value))
    && (job.Rewritten? ==> c.uris[job.token] == env.encode(RegisteredDoc(job.request, job.token)))
  }

  /** No forgotten transaction is about the token. */
  predicate Remembered(w: World, job: Job, id: string) {
    id in w.rows && ScutUri.IsNumeral(id) && job.Forgotten? ==> Target(job) != Some(ScutUri.NumberOf(id))
  }

  predicate Staying(w: World, id: string) {
    Custodial(w, id) && forall j :: j in w.jobs ==> !Leaving(w.jobs[j], id)
  }

  predicate InLine(w: World, q: seq<nat>, id: string) {
    && NoDuplicates(q)
    && (forall j :: j in q ==> j in w.jobs && Landed(w.jobs[j], id))
    && (forall j :: j in w.jobs && Landed(w.jobs[j], id) ==> j in q)
  }

  /** The token's document is that of the last update in line, and else it agrees
      with the row. */
  predicate TokenOnChain(env: Env, w: World, q: seq<nat>, id: string)
    requires Custodial(w, id) && InLine(w, q, id)
  {
    if q == [] then RowOnChain(env, w, id)
    else
      assert q[|q| - 1] in q;
      && WalletOwns(env, w.chain, ScutUri.NumberOf(id))
      && w.chain.uris[ScutUri.NumberOf(id)] == env.encode(w.jobs[q[|q| - 1]].doc)
  }

  predicate Tracked(env: Env, w: World, q: seq<nat>, id: string) {
    && (forall j :: j in w.jobs ==> NewOnChain(env, w.chain, w.jobs[j]) && Remembered(w, w.jobs[j], id))
    && InLine(w, q, id)
    && (Staying(w, id) ==> TokenOnChain(env, w, q, id))
  }

  predicate SameRow(w: World, w': World, id: string) {
    if id in w.rows then id in w'.rows && w'.rows[id] == w.rows[id] else id !in w'.rows
  }

  /** Nothing lands: handlers come and go, but none that has landed. */
  predicate Idle(w: World, w': World, id: string) {
    && w'.chain == w.chain && SameRow(w, w', id)
    && (forall j :: j in w'.jobs && !(j in w.jobs && w'.jobs[j] == w.jobs[j]) ==>
          && !Landed(w'.jobs[j], id) && !Leaving(w'.jobs[j], id)
          && NewToken(w'.jobs[j]).None? && Remembered(w', w'.jobs[j], id))
    && (forall j :: j in w.jobs && (Landed(w.jobs[j], id) || Leaving(w.jobs[j], id)) ==>
          j in w'.jobs && w'.jobs[j] == w.jobs[j])
  }

  lemma IdleTracked(env: Env, w: World, w': World, q: seq<nat>, id: string)
    requires Tracked(env, w, q, id) && Idle(w, w', id)
    ensures Tracked(env, w', q, id)
  {
    forall j | j in w'.jobs
      ensures NewOnChain(env, w'.chain, w'.jobs[j]) && Remembered(w', w'.jobs[j], id)
    {
      assert j in w.jobs && w'.jobs[j] == w.jobs[j] ==>
               NewOnChain(env, w.chain, w.jobs[j]) && Remembered(w, w.jobs[j], id);
    }
    IdleInLine(w, w', q, id);
    if Staying(w', id) {
      IdleStaying(w, w', id);
    }
  }

  lemma IdleInLine(w: World, w': World, q: seq<nat>, id: string)
    requires InLine(w, q, id) && Idle(w, w', id)
    ensures InLine(w', q, id) && forall j :: j in q ==> w'.jobs[j] == w.jobs[j]
  {
  }

  lemma IdleStaying(w: World, w': World, id: string)
    requires Idle(w, w', id) && Staying(w', id)
    ensures Staying(w, id)
  {
    forall j | j in w.jobs
      ensures !Leaving(w.jobs[j], id)
    {
      assert j in w'.jobs ==> !Leaving(w'.jobs[j], id);
    }
  }

  /** A handler is where it is now, and nothing of it has landed. */
  lemma PlacedIdle(w: World, w': World, job: nat, j: Job, id: string)
    requires w'.chain == w.chain && w'.rows == w.rows && w'.jobs == w.jobs[job := j]
    requires job in w.jobs ==> !Landed(w.jobs[job], id) && !Leaving(w.jobs[job], id)
    requires !Landed(j, id) && !Leaving(j, id) && NewToken(j).None? && Remembered(w, j, id)
    ensures Idle(w, w', id)
  {
  }

  lemma StartTracked(env: Env, w: World, q: seq<nat>, step: Step, id: string)
    requires Tracked(env, w, q, id) && Enabled(env, w, step)
    requires step.RegisterStart? || step.UpdateStart? || step.TransferStart?
    ensures Tracked(env, Apply(env, w, step), q, id)
  {
    var w' := Apply(env, w, step);
    ChainStays(env, w, step);
    DatabaseStays(env, w, step);
    StartPlaces(env, w, step);
    if w'.jobs != w.jobs {
      PlacedIdle(w, w', step.job, w'.jobs[step.job], id);
    }
    IdleTracked(env, w, w', q, id);
  }

  lemma GivenUpElsewhere(env: Env, w: World, job: nat, id: string)
    requires WellKept(w) && Enabled(env, w, GiveUp(job)) && OldToken(w.jobs[job]) != Some(id)
    ensures Remembered(w, Forgotten(TxCall(env, w.jobs[job]).value), id)
  {
    assert JobFits(w, w.jobs[job]);
    if id in w.rows {
      TokensDiffer(w, w.jobs[job], id);
    }
  }

  lemma GiveUpTracked(env: Env, w: World, q: seq<nat>, job: nat, id: string)
    requires WellKept(w) && Tracked(env, w, q, id) && Enabled(env, w, GiveUp(job)) && OldToken(w.jobs[job]) != Some(id)
    ensures Tracked(env, Apply(env, w, GiveUp(job)), q, id)
  {
    var w', j := Apply(env, w, GiveUp(job)), Forgotten(TxCall(env, w.jobs[job]).value);
    GivenUpElsewhere(env, w, job, id);
    PlacedIdle(w, w', job, j, id);
    IdleTracked(env, w, w', q, id);
  }

  lemma FailTracked(env: Env, w: World, q: seq<nat>, job: nat, id: string)
    requires Tracked(env, w, q, id) && job in w.jobs && !Landed(w.jobs[job], id) && !Leaving(w.jobs[job], id)
    ensures Tracked(env, w.(jobs := w.jobs - {job}), q, id)
  {
    IdleTracked(env, w, w.(jobs := w.jobs - {job}), q, id);
  }

  /** Different handlers, different tokens. */
  lemma TokensDiffer(w: World, a: Job, id: string)
    requires WellKept(w) && JobFits(w, a) && id in w.rows
    ensures ScutUri.IsNumeral(id) && NewToken(a) != Some(ScutUri.NumberOf(id))
    ensures OldToken(a).Some? && OldToken(a).value != id ==>
              ScutUri.IsNumeral(OldToken(a).value) && ScutUri.NumberOf(OldToken(a).value) != ScutUri.NumberOf(id)
  {
    assert TokenText(w.chain, id);
    if OldToken(a).Some? {
      assert TokenText(w.chain, OldToken(a).value);
    }
  }

  /** A call leaves alone every token the wallet owns, but for the one that a call
      not from outside names. */
  lemma CallLeaves(env: Env, w: World, call: Call, token: nat)
    requires Sound(w.chain) && Effect(w.chain, call).Some? && ApprovesNobody(w.chain, env.wallet)
    requires IsOutside(env, call) || TokenOf(call) != Some(token)
    ensures WalletOwns(env, w.chain, token) ==>
              && WalletOwns(env, Called(w, call).chain, token)
              && Called(w, call).chain.uris[token] == w.chain.uris[token]
  {
  }

  /** The same, for what is known of a token and of a registration. */
  lemma CallLeavesNew(env: Env, w: World, call: Call, job: Job)
    requires Sound(w.chain) && Effect(w.chain, call).Some? && NewOnChain(env, w.chain, job)
    requires ApprovesNobody(w.chain, env.wallet)
    requires NewToken(job).Some? ==> IsOutside(env, call) || TokenOf(call) != NewToken(job)
    ensures NewOnChain(env, Called(w, call).chain, job)
  {
    if NewToken(job).Some? {
      CallLeaves(env, w, call, NewToken(job).value);
    }
  }

  lemma OutsideTracked(env: Env, w: World, q: seq<nat>, call: Call, id: string)
    requires WellKept(w) && Tracked(env, w, q, id) && IsOutside(env, call) && Effect(w.chain, call).Some?
    requires ApprovesNobody(w.chain, env.wallet)
    ensures Tracked(env, Called(w, call), q, id)
  {
    var w' := Called(w, call);
    forall j | j in w'.jobs
      ensures NewOnChain(env, w'.chain, w'.jobs[j]) && Remembered(w', w'.jobs[j], id)
    {
      assert NewOnChain(env, w.chain, w.jobs[j]) && Remembered(w, w.jobs[j], id);
      CallLeavesNew(env, w, call, w.jobs[j]);
    }
    assert InLine(w', q, id);
    if Staying(w', id) {
      assert Staying(w, id);
      CallLeaves(env, w, call, ScutUri.NumberOf(id));
    }
  }

  // ---- Transactions ----

  /** The transaction of one handler is not about the token that another one is
      registering, */
  lemma TxOfAnother(env: Env, w: World, job: nat, j: nat)
    requires WellKept(w) && TxEnabled(env, w, job) && j in w.jobs && j != job && NewToken(w.jobs[j]).Some?
    ensures var call := TxCall(env, w.jobs[job]).value;
            TokenOf(call) != NewToken(w.jobs[j])
  {
    assert JobFits(w, w.jobs[j]) && JobFits(w, w.jobs[job]) && Apart(w.jobs[j], w.jobs[job]);
    if OldToken(w.jobs[job]).Some? {
      OldIsNotNew(w, w.jobs[j], OldToken(w.jobs[job]).value);
    }
  }

  /** nor about a registered one that it is not working on. */
  lemma TxElsewhere(env: Env, w: World, job: nat, id: string)
    requires WellKept(w) && TxEnabled(env, w, job) && id in w.rows && ScutUri.IsNumeral(id)
    requires OldToken(w.jobs[job]) != Some(id) && Remembered(w, w.jobs[job], id)
    ensures var call := TxCall(env, w.jobs[job]).value;
            TokenOf(call) != Some(ScutUri.NumberOf(id))
  {
    assert JobFits(w, w.jobs[job]);
    TokensDiffer(w, w.jobs[job], id);
  }

  lemma OwnNewOnChain(env: Env, w: World, job: nat)
    requires Sound(w.chain) && TxEnabled(env, w, job) && NewOnChain(env, w.chain, w.jobs[job])
    ensures NewOnChain(env, AfterTxStep(env, w, job).chain, AfterTxStep(env, w, job).jobs[job])
  {
  }

  lemma TxNewOnChain(env: Env, w: World, q: seq<nat>, job: nat, j: nat, id: string)
    requires WellKept(w) && Tracked(env, w, q, id) && TxEnabled(env, w, job) && j in w.jobs
    requires ApprovesNobody(w.chain, env.wallet)
    ensures var w' := AfterTxStep(env, w, job);
            NewOnChain(env, w'.chain, w'.jobs[j]) && Remembered(w', w'.jobs[j], id)
  {
    assert NewOnChain(env, w.chain, w.jobs[j]) && Remembered(w, w.jobs[j], id);
    if j == job {
      OwnNewOnChain(env, w, job);
    } else {
      if NewToken(w.jobs[j]).Some? {
        TxOfAnother(env, w, job, j);
      }
      CallLeavesNew(env, w, TxCall(env, w.jobs[job]).value, w.jobs[j]);
    }
  }

  /** A transaction changes the place of its own handler only. */
  lemma OthersStay(env: Env, w: World, job: nat, id: string)
    requires TxEnabled(env, w, job)
    ensures var w' := AfterTxStep(env, w, job);
            && SameRow(w, w', id) && w'.jobs.Keys == w.jobs.Keys
            && (forall j :: j in w.jobs && j != job ==> w'.jobs[j] == w.jobs[j])
            && !Landed(w.jobs[job], id) && !Leaving(w.jobs[job], id)
  {
  }

  /** The handler whose update has landed joins the line. */
  lemma TxInLine(env: Env, w: World, q: seq<nat>, job: nat, id: string)
    requires InLine(w, q, id) && TxEnabled(env, w, job)
    ensures InLine(AfterTxStep(env, w, job), NextWaiting(q, w, Tx(job), id), id)
  {
    OthersStay(env, w, job, id);
    var q' := NextWaiting(q, w, Tx(job), id);
    assert job !in q;
    forall i, k | 0 <= i < k < |q'|
      ensures q'[i] != q'[k]
    {
      assert q'[i] in q;
    }
  }

  /** The transaction of a handler of some other token. */
  lemma TxStays(env: Env, w: World, q: seq<nat>, job: nat, id: string)
    requires WellKept(w) && TxEnabled(env, w, job) && OldToken(w.jobs[job]) != Some(id)
    requires ApprovesNobody(w.chain, env.wallet)
    requires Remembered(w, w.jobs[job], id) && InLine(w, q, id) && InLine(AfterTxStep(env, w, job), q, id)
    requires Custodial(w, id) && TokenOnChain(env, w, q, id)
    ensures Custodial(AfterTxStep(env, w, job), id) && TokenOnChain(env, AfterTxStep(env, w, job), q, id)
  {
    OthersStay(env, w, job, id);
    TxElsewhere(env, w, job, id);
    CallLeaves(env, w, TxCall(env, w.jobs[job]).value, ScutUri.NumberOf(id));
    assert q != [] ==> q[|q| - 1] in q;
  }

  /** An update of the token lands. */
  lemma TxLands(env: Env, w: World, q: seq<nat>, job: nat, id: string)
    requires WellKept(w) && TxEnabled(env, w, job) && w.jobs[job].UpdateSigned? && w.jobs[job].tokenId == id
    requires Custodial(w, id) && InLine(AfterTxStep(env, w, job), q + [job], id)
    ensures Custodial(AfterTxStep(env, w, job), id) && TokenOnChain(env, AfterTxStep(env, w, job), q + [job], id)
  {
    assert TokenText(w.chain, id);
  }

  lemma TxStaying(env: Env, w: World, q: seq<nat>, job: nat, id: string)
    requires WellKept(w) && Tracked(env, w, q, id) && TxEnabled(env, w, job) && ApprovesNobody(w.chain, env.wallet)
    requires Staying(AfterTxStep(env, w, job), id)
    requires InLine(AfterTxStep(env, w, job), NextWaiting(q, w, Tx(job), id), id)
    ensures TokenOnChain(env, AfterTxStep(env, w, job), NextWaiting(q, w, Tx(job), id), id)
  {
    var w' := AfterTxStep(env, w, job);
    OthersStay(env, w, job, id);
    assert !Leaving(w'.jobs[job], id);
    if OldToken(w.jobs[job]) == Some(id) {
      TxLands(env, w, q, job, id);
    } else {
      forall j | j in w.jobs
        ensures !Leaving(w.jobs[j], id)
      {
        assert !Leaving(w'.jobs[j], id);
      }
      assert Remembered(w, w.jobs[job], id);
      TxStays(env, w, q, job, id);
    }
  }

  lemma TxTracked(env: Env, w: World, q: seq<nat>, job: nat, id: string)
    requires WellKept(w) && Tracked(env, w, q, id) && TxEnabled(env, w, job) && ApprovesNobody(w.chain, env.wallet)
    ensures Tracked(env, AfterTxStep(env, w, job), NextWaiting(q, w, Tx(job), id), id)
  {
    var w' := AfterTxStep(env, w, job);
    forall j | j in w'.jobs
      ensures NewOnChain(env, w'.chain, w'.jobs[j]) && Remembered(w', w'.jobs[j], id)
    {
      TxNewOnChain(env, w, q, job, j, id);
    }
    TxInLine(env, w, q, job, id);
    if Staying(w', id) {
      TxStaying(env, w, q, job, id);
    }
  }

  // ---- Commits ----

  lemma {:induction false} MinusAbsent(q: seq<nat>, x: nat)
    requires x !in q
    ensures Minus(q, x) == q
  {
    if |q| > 0 {
      MinusAbsent(q[1..], x);
      assert q == [q[0]] + q[1..];
    }
  }

  lemma MinusHead(q: seq<nat>)
    requires |q| > 0 && NoDuplicates(q)
    ensures Minus(q, q[0]) == q[1..] && NoDuplicates(q[1..]) && q[0] !in q[1..]
  {
    assert forall i :: 0 < i < |q| ==> q[0] != q[i];
    MinusAbsent(q[1..], q[0]);
  }

  lemma HeadIsIn(q: seq<nat>)
    ensures q == [] || q[0] in q
  {
  }

  /** A line that nobody stands in. */
  lemma NobodyInLine(w: World, q: seq<nat>, id: string)
    requires InLine(w, q, id) && forall j :: j in w.jobs ==> !Landed(w.jobs[j], id)
    ensures q == []
  {
    HeadIsIn(q);
  }

  lemma NotRegisteredYet(env: Env, w: World, q: seq<nat>, job: nat, id: string)
    requires WellKept(w) && Tracked(env, w, q, id) && job in w.jobs && w.jobs[job].Rewritten?
    requires id == ScutUri.Decimal(w.jobs[job].token)
    ensures q == [] && NewOnChain(env, w.chain, w.jobs[job])
    ensures forall j :: j in w.jobs ==> OldToken(w.jobs[j]) != Some(id)
    ensures forall j :: j in w.jobs && w.jobs[j].Forgotten? ==> Target(w.jobs[j]) != Some(ScutUri.NumberOf(id))
  {
    assert JobFits(w, w.jobs[job]) && NewOnChain(env, w.chain, w.jobs[job]);
    assert ScutUri.NumberOf(id) == w.jobs[job].token;
    forall j | j in w.jobs
      ensures OldToken(w.jobs[j]) != Some(id) && !Landed(w.jobs[j], id)
      ensures w.jobs[j].Forgotten? ==> Target(w.jobs[j]) != Some(ScutUri.NumberOf(id))
    {
      assert JobFits(w, w.jobs[j]);
      assert j != job ==> Apart(w.jobs[job], w.jobs[j]);
    }
    NobodyInLine(w, q, id);
  }

  lemma OwnRegisterTracked(env: Env, w: World, q: seq<nat>, job: nat, made: int, now: int, id: string)
    requires ValidEnv(env) && WellKept(w) && Tracked(env, w, q, id) && job in w.jobs && w.jobs[job].Rewritten?
    requires id == ScutUri.Decimal(w.jobs[job].token)
    ensures Tracked(env, AfterRegister(w, job, made, now), q, id)
  {
    var r, w' := w.jobs[job], AfterRegister(w, job, made, now);
    CommitKeeps(w, job, made, now);
    NotRegisteredYet(env, w, q, job, id);
    assert env.decode(env.encode(RegisteredDoc(r.request, r.token))) == Some(RegisteredDoc(r.request, r.token));
    forall j | j in w'.jobs
      ensures NewOnChain(env, w'.chain, w'.jobs[j]) && Remembered(w', w'.jobs[j], id)
    {
      assert NewOnChain(env, w.chain, w.jobs[j]);
    }
  }

  lemma RegisterTracked(env: Env, w: World, q: seq<nat>, job: nat, made: int, now: int, id: string)
    requires ValidEnv(env) && WellKept(w) && Tracked(env, w, q, id) && job in w.jobs && w.jobs[job].Rewritten?
    ensures Tracked(env, AfterRegister(w, job, made, now), q, id)
  {
    if id == ScutUri.Decimal(w.jobs[job].token) {
      OwnRegisterTracked(env, w, q, job, made, now, id);
    } else {
      IdleTracked(env, w, AfterRegister(w, job, made, now), q, id);
    }
  }

  /** The head of the line is accepted. */
  lemma HeadInLine(w: World, w': World, q: seq<nat>, id: string)
    requires InLine(w, q, id) && |q| > 0 && w'.jobs == w.jobs - {q[0]}
    ensures InLine(w', Minus(q, q[0]), id)
  {
    MinusHead(q);
    forall j | j in w'.jobs && Landed(w'.jobs[j], id)
      ensures j in q[1..]
    {
      assert j in q && j != q[0];
    }
    assert forall j :: j in q[1..] ==> j in q && j != q[0];
  }

  lemma HeadStaying(env: Env, w: World, w': World, q: seq<nat>, id: string)
    requires InLine(w, q, id) && |q| > 1 && w'.jobs == w.jobs - {q[0]} && w'.chain == w.chain
    requires InLine(w', Minus(q, q[0]), id) && Custodial(w, id) && Custodial(w', id) && TokenOnChain(env, w, q, id)
    ensures TokenOnChain(env, w', Minus(q, q[0]), id)
  {
    MinusHead(q);
    assert q[1..][|q| - 2] == q[|q| - 1] && q[|q| - 1] in q[1..];
  }

  /** The last in line is accepted: its document is on the chain, and its key
      goes into the row. */
  lemma LastStaying(env: Env, w: World, q: seq<nat>, now: int, id: string)
    requires ValidEnv(env) && InLine(w, q, id) && |q| == 1 && Custodial(w, id) && TokenOnChain(env, w, q, id)
    ensures q[0] in w.jobs && w.jobs[q[0]].UpdateWritten?
    ensures Custodial(AfterUpdate(w, q[0], now), id) && RowOnChain(env, AfterUpdate(w, q[0], now), id)
  {
    assert q[0] in q && Landed(w.jobs[q[0]], id);
    var doc := w.jobs[q[0]].doc;
    assert env.decode(env.encode(doc)) == Some(doc);
  }

  lemma OwnUpdateTracked(env: Env, w: World, q: seq<nat>, now: int, id: string)
    requires ValidEnv(env) && Tracked(env, w, q, id) && |q| > 0 && q[0] in w.jobs && Landed(w.jobs[q[0]], id)
    ensures Tracked(env, AfterUpdate(w, q[0], now), Minus(q, q[0]), id)
  {
    var w' := AfterUpdate(w, q[0], now);
    forall k | k in w'.jobs
      ensures NewOnChain(env, w'.chain, w'.jobs[k]) && Remembered(w', w'.jobs[k], id)
    {
      assert NewOnChain(env, w.chain, w.jobs[k]) && Remembered(w, w.jobs[k], id);
    }
    HeadInLine(w, w', q, id);
    if Staying(w', id) {
      forall k | k in w.jobs
        ensures !Leaving(w.jobs[k], id)
      {
        assert k != q[0] ==> !Leaving(w'.jobs[k], id);
      }
      assert Staying(w, id);
      if |q| > 1 {
        HeadStaying(env, w, w', q, id);
      } else {
        MinusHead(q);
        LastStaying(env, w, q, now, id);
      }
    }
  }

  lemma UpdateTracked(env: Env, w: World, q: seq<nat>, job: nat, now: int, id: string)
    requires ValidEnv(env) && Tracked(env, w, q, id) && job in w.jobs && w.jobs[job].UpdateWritten?
    requires !Disorder(w, q, UpdateCommit(job, now), id)
    ensures Tracked(env, AfterUpdate(w, job, now), Minus(q, job), id)
  {
    if w.jobs[job].tokenId == id {
      OwnUpdateTracked(env, w, q, now, id);
    } else {
      MinusAbsent(q, job);
      IdleTracked(env, w, AfterUpdate(w, job, now), q, id);
    }
  }

  lemma TransferTracked(env: Env, w: World, q: seq<nat>, job: nat, now: int, id: string)
    requires Tracked(env, w, q, id) && job in w.jobs && w.jobs[job].Moved?
    ensures Tracked(env, AfterTransfer(w, job, now), q, id)
  {
    var w' := AfterTransfer(w, job, now);
    if w.jobs[job].tokenId != id {
      IdleTracked(env, w, w', q, id);
    } else {
      forall k | k in w'.jobs
        ensures NewOnChain(env, w'.chain, w'.jobs[k]) && Remembered(w', w'.jobs[k], id)
      {
        assert NewOnChain(env, w.chain, w.jobs[k]) && Remembered(w, w.jobs[k], id);
      }
    }
  }

  lemma StepTracked(env: Env, w: World, q: seq<nat>, step: Step, id: string)
    requires ValidEnv(env) && WellKept(w) && Tracked(env, w, q, id) && Enabled(env, w, step)
    requires ApprovesNobody(w.chain, env.wallet)
    requires !Disorder(w, q, step, id)
    ensures Tracked(env, Apply(env, w, step), NextWaiting(q, w, step, id), id)
  {
    match step
    case Tx(job) => TxTracked(env, w, q, job, id);
    case Outside(call) => OutsideTracked(env, w, q, call, id);
    case RegisterCommit(job, made, now) => RegisterTracked(env, w, q, job, made, now, id);
    case UpdateCommit(job, now) => UpdateTracked(env, w, q, job, now, id);
    case TransferCommit(job, now) => TransferTracked(env, w, q, job, now, id);
    case Fail(job) =>
      MinusAbsent(q, job);
      FailTracked(env, w, q, job, id);
    case GiveUp(job) => GiveUpTracked(env, w, q, job, id);
    case _ => StartTracked(env, w, q, step, id);
  }

  lemma FrontOrderly(env: Env, start: int, steps: seq<Step>, id: string)
    requires IsRun(env, start, steps) && |steps| > 0 && Orderly(env, start, steps, id)
    ensures var front, last := steps[..|steps| - 1], steps[|steps| - 1];
            && IsRun(env, start, front) && Orderly(env, start, front, id)
            && !Disorder(Exec(env, start, front).value, Waiting(env, start, front, id), last, id)
  {
    var last := |steps| - 1;
    var front := steps[..last];
    PrefixIsRun(env, start, steps, last);
    assert !Disorder(WorldAt(env, start, steps, last), WaitingAt(env, start, steps, last, id), steps[last], id);
    forall n | 0 <= n < |front|
      ensures !Disorder(WorldAt(env, start, front, n), WaitingAt(env, start, front, n, id), front[n], id)
    {
      assert front[..n] == steps[..n];
      assert !Disorder(WorldAt(env, start, steps, n), WaitingAt(env, start, steps, n, id), steps[n], id);
    }
  }

  lemma {:induction false} RunTracked(env: Env, start: int, steps: seq<Step>, id: string)
    requires ValidEnv(env) && IsRun(env, start, steps) && Orderly(env, start, steps, id)
    ensures Tracked(env, Exec(env, start, steps).value, Waiting(env, start, steps, id), id)
  {
    if |steps| > 0 {
      var front := steps[..|steps| - 1];
      FrontOrderly(env, start, steps, id);
      RunTracked(env, start, front, id);
      RunKeeps(env, start, front);
      NobodyIsApproved(env, start, front);
      StepTracked(env, Exec(env, start, front).value, Waiting(env, start, front, id), steps[|steps| - 1], id);
    }
  }

  /** Handlers may overlap in any way, and updates land one after the other before
      the first of them is accepted, as long as the token's updates are accepted
      in the order in which they land and none of its transactions is given up:
      whenever none of them has landed without being accepted, the wallet owns
      the custodial token and database and chain agree. */
  lemma DatabaseAgreesWithChain(env: Env, start: int, steps: seq<Step>, id: string)
    requires ValidEnv(env) && IsRun(env, start, steps) && Orderly(env, start, steps, id)
    requires var w := Exec(env, start, steps).value;
             Custodial(w, id) && forall j :: j in w.jobs ==> !Landed(w.jobs[j], id) && !Leaving(w.jobs[j], id)
    ensures RowOnChain(env, Exec(env, start, steps).value, id)
  {
    var q := Waiting(env, start, steps, id);
    RunTracked(env, start, steps, id);
    NobodyInLine(Exec(env, start, steps).value, q, id);
  }
}
