/** Safety of the registration service over whole runs: which tokens it knows,
    how far the daily cap can be overrun, that custody is given up once and for
    good, and how transfers balance. */
module RegisterRuns {
  import opened Basics
  import opened Contract
  import opened RegisterDb
  import opened RegisterMachine
  import ScutUri

  // ---- What a step leaves alone ----

  predicate OnChain(step: Step) {
    step.Tx? || step.Outside?
  }

  predicate Commits(step: Step) {
    step.RegisterCommit? || step.UpdateCommit? || step.TransferCommit?
  }

  lemma ChainStays(env: Env, w: World, step: Step)
    requires Enabled(env, w, step) && !OnChain(step)
    ensures var w' := Apply(env, w, step);
            w'.chain == w.chain && w'.moves == w.moves && w'.writes == w.writes
  {
  }

  lemma DatabaseStays(env: Env, w: World, step: Step)
    requires Enabled(env, w, step) && !Commits(step)
    ensures var w' := Apply(env, w, step);
            w'.rows == w.rows && w'.counts == w.counts && w'.history == w.history
  {
  }

  /** A handler that starts waits for its first transaction, or answers at once. */
  lemma StartPlaces(env: Env, w: World, step: Step)
    requires Enabled(env, w, step) && (step.RegisterStart? || step.UpdateStart? || step.TransferStart?)
    ensures var w' := Apply(env, w, step);
            || w'.jobs == w.jobs
            || (&& step.job in w'.jobs && w'.jobs == w.jobs[step.job := w'.jobs[step.job]]
                && (w'.jobs[step.job].Minting? || w'.jobs[step.job].UpdateSigned? || w'.jobs[step.job].TransferSigned?))
  {
  }

  // ---- Tokens the service knows ----

  /** The decimal form of a token that exists. */
  predicate TokenText(c: Chain, id: string) {
    ScutUri.IsNumeral(id) && ScutUri.Decimal(ScutUri.NumberOf(id)) == id && ScutUri.NumberOf(id) in c.owners
  }

  /** The token a registration is about, or a forgotten transaction. */
  function Target(job: Job): Option<nat> {
    if job.Forgotten? then TokenOf(job.call) else NewToken(job)
  }

  predicate JobFits(w: World, job: Job) {
    && (Target(job).Some? ==> Target(job).value in w.chain.owners)
    && (NewToken(job).Some? ==> ScutUri.Decimal(NewToken(job).value) !in w.rows)
    && (OldToken(job).Some? ==> OldToken(job).value in w.rows)
  }

  predicate Apart(a: Job, b: Job) {
    NewToken(a).Some? ==> NewToken(a) != Target(b)
  }

  ghost predicate WellKept(w: World) {
    && Sound(w.chain)
    && (forall id :: id in w.rows ==> TokenText(w.chain, id))
    && (forall j :: j in w.jobs ==> JobFits(w, w.jobs[j]))
    && (forall j, k :: j in w.jobs && k in w.jobs && j != k ==> Apart(w.jobs[j], w.jobs[k]))
  }

  lemma CalledKeeps(w: World, call: Call)
    requires WellKept(w) && Effect(w.chain, call).Some?
    ensures WellKept(Called(w, call))
  {
    forall id: nat
      ensures Sound(Effect(w.chain, call).value)
      ensures id in w.chain.owners ==> id in Effect(w.chain, call).value.owners
    {
      CallKeeps(w.chain, call, id);
    }
  }

  /** A handler gets where it is now. */
  lemma JobKeeps(w: World, w': World, job: nat, j: Job)
    requires WellKept(w) && JobFits(w, j)
    requires w'.chain == w.chain && w'.rows == w.rows && w'.jobs == w.jobs[job := j]
    requires forall k :: k in w.jobs && k != job ==> Apart(w.jobs[k], j) && Apart(j, w.jobs[k])
    ensures WellKept(w')
  {
    forall k | k in w'.jobs
      ensures JobFits(w', w'.jobs[k])
    {
      assert JobFits(w, w'.jobs[k]);
    }
  }

  /** A token that was registered is not being registered. */
  lemma OldIsNotNew(w: World, a: Job, id: string)
    requires WellKept(w) && JobFits(w, a) && id in w.rows
    ensures ScutUri.IsNumeral(id) && NewToken(a) != Some(ScutUri.NumberOf(id))
  {
    assert TokenText(w.chain, id);
  }

  /** A new token is about to be minted: nobody works on it yet. */
  lemma NextIsNew(w: World, j: nat)
    requires WellKept(w) && j in w.jobs
    ensures ScutUri.Decimal(w.chain.nextTokenId) !in w.rows
    ensures Target(w.jobs[j]) != Some(w.chain.nextTokenId)
  {
    assert JobFits(w, w.jobs[j]);
    var next := w.chain.nextTokenId;
    assert ScutUri.NumberOf(ScutUri.Decimal(next)) == next && next !in w.chain.owners;
    assert ScutUri.Decimal(next) in w.rows ==> TokenText(w.chain, ScutUri.Decimal(next));
  }

  /** Tokens are never lost. */
  lemma TokensGrow(w: World, call: Call, token: nat)
    requires Sound(w.chain) && Effect(w.chain, call).Some?
    ensures token in w.chain.owners || (call.Mint? && token == w.chain.nextTokenId) ==>
              token in Called(w, call).chain.owners
  {
  }

  /** What a transaction does to a handler. */
  lemma AfterTxTokens(job: Job, minted: nat)
    ensures OldToken(AfterTx(job, minted)) == OldToken(job)
    ensures job.Minting? ==> NewToken(AfterTx(job, minted)) == Target(AfterTx(job, minted)) == Some(minted)
    ensures !job.Minting? ==>
              && NewToken(AfterTx(job, minted)) == NewToken(job)
              && (Target(AfterTx(job, minted)) == Target(job) || Target(AfterTx(job, minted)).None?)
  {
  }

  lemma TxFits(w: World, call: Call, job: nat)
    requires WellKept(w) && job in w.jobs && Effect(w.chain, call).Some? && (w.jobs[job].Minting? ==> call.Mint?)
    ensures JobFits(Called(w, call), AfterTx(w.jobs[job], w.chain.nextTokenId))
  {
    var before, after := w.jobs[job], AfterTx(w.jobs[job], w.chain.nextTokenId);
    assert JobFits(w, before);
    NextIsNew(w, job);
    AfterTxTokens(before, w.chain.nextTokenId);
    if Target(after).Some? {
      TokensGrow(w, call, Target(after).value);
    }
  }

  lemma TxApart(w: World, job: nat, k: nat)
    requires WellKept(w) && job in w.jobs && k in w.jobs && k != job
    ensures var after := AfterTx(w.jobs[job], w.chain.nextTokenId);
            Apart(w.jobs[k], after) && Apart(after, w.jobs[k])
  {
    NextIsNew(w, k);
    assert Apart(w.jobs[k], w.jobs[job]) && Apart(w.jobs[job], w.jobs[k]);
  }

  lemma TxKeeps(env: Env, w: World, job: nat)
    requires WellKept(w) && TxEnabled(env, w, job)
    ensures WellKept(AfterTxStep(env, w, job))
  {
    var call, after := TxCall(env, w.jobs[job]).value, AfterTx(w.jobs[job], w.chain.nextTokenId);
    CalledKeeps(w, call);
    TxFits(w, call, job);
    forall k | k in w.jobs && k != job
      ensures Apart(w.jobs[k], after) && Apart(after, w.jobs[k])
    {
      TxApart(w, job, k);
    }
    JobKeeps(Called(w, call), AfterTxStep(env, w, job), job, after);
  }

  lemma ForgottenFits(env: Env, w: World, job: nat)
    requires WellKept(w) && Enabled(env, w, GiveUp(job))
    ensures JobFits(w, Forgotten(TxCall(env, w.jobs[job]).value))
  {
    assert JobFits(w, w.jobs[job]);
    if OldToken(w.jobs[job]).Some? {
      assert TokenText(w.chain, OldToken(w.jobs[job]).value);
    }
  }

  lemma ForgottenApart(env: Env, w: World, job: nat, k: nat)
    requires WellKept(w) && Enabled(env, w, GiveUp(job)) && k in w.jobs && k != job
    ensures Apart(w.jobs[k], Forgotten(TxCall(env, w.jobs[job]).value))
  {
    assert JobFits(w, w.jobs[k]) && JobFits(w, w.jobs[job]) && Apart(w.jobs[k], w.jobs[job]);
    if OldToken(w.jobs[job]).Some? {
      OldIsNotNew(w, w.jobs[k], OldToken(w.jobs[job]).value);
    }
  }

  lemma GiveUpKeeps(env: Env, w: World, job: nat)
    requires WellKept(w) && Enabled(env, w, GiveUp(job))
    ensures WellKept(Apply(env, w, GiveUp(job)))
  {
    var call := TxCall(env, w.jobs[job]).value;
    ForgottenFits(env, w, job);
    forall k | k in w.jobs && k != job
      ensures Apart(w.jobs[k], Forgotten(call)) && Apart(Forgotten(call), w.jobs[k])
    {
      ForgottenApart(env, w, job, k);
    }
    JobKeeps(w, Apply(env, w, GiveUp(job)), job, Forgotten(call));
  }

  /** A handler ends, and perhaps the columns of rows change, but not which rows
      there are. */
  lemma EndKeeps(w: World, w': World, job: nat)
    requires WellKept(w) && w'.chain == w.chain && w'.rows.Keys == w.rows.Keys && w'.jobs == w.jobs - {job}
    ensures WellKept(w')
  {
    assert forall id :: id in w'.rows <==> id in w.rows;
    forall k | k in w'.jobs
      ensures JobFits(w', w'.jobs[k])
    {
      assert JobFits(w, w'.jobs[k]);
    }
  }

  lemma CommitKeeps(w: World, job: nat, made: int, now: int)
    requires WellKept(w) && job in w.jobs && w.jobs[job].Rewritten?
    ensures WellKept(AfterRegister(w, job, made, now))
    ensures ScutUri.Decimal(w.jobs[job].token) !in w.rows
  {
    var w', token := AfterRegister(w, job, made, now), w.jobs[job].token;
    var id := ScutUri.Decimal(token);
    assert JobFits(w, w.jobs[job]) && TokenText(w.chain, id);
    forall j | j in w'.jobs
      ensures JobFits(w', w'.jobs[j])
    {
      assert JobFits(w, w.jobs[j]) && Apart(w.jobs[job], w.jobs[j]);
      if NewToken(w.jobs[j]).Some? {
        assert ScutUri.NumberOf(id) == token;
        assert ScutUri.NumberOf(ScutUri.Decimal(NewToken(w.jobs[j]).value)) == NewToken(w.jobs[j]).value;
      }
    }
  }

  /** Nothing but the clock differs. */
  lemma IdleKeeps(w: World, w': World)
    requires WellKept(w) && w'.chain == w.chain && w'.rows == w.rows && w'.jobs == w.jobs
    ensures WellKept(w')
  {
    forall k | k in w'.jobs
      ensures JobFits(w', w'.jobs[k])
    {
      assert JobFits(w, w'.jobs[k]);
    }
  }

  lemma RegisterStartKeeps(env: Env, w: World, job: nat, r: Request, asked: int, now: int)
    requires WellKept(w) && job !in w.jobs
    ensures WellKept(AfterRegisterStart(env, w, job, r, asked, now))
  {
    if RegisterRefusal(env, w, r, asked, now) == 0 {
      JobKeeps(w, AfterRegisterStart(env, w, job, r, asked, now), job, Minting(r));
    } else {
      IdleKeeps(w, AfterRegisterStart(env, w, job, r, asked, now));
    }
  }

  /** A job about a registered token never gets in the way of a registration. */
  lemma OldJobKeeps(w: World, w': World, job: nat, j: Job)
    requires WellKept(w) && OldToken(j).Some? && OldToken(j).value in w.rows
    requires w'.chain == w.chain && w'.rows == w.rows && w'.jobs == w.jobs[job := j]
    ensures WellKept(w')
  {
    JobKeeps(w, w', job, j);
  }

  lemma UpdateStartKeeps(env: Env, w: World, job: nat, tokenId: string, doc: Doc, signature: string)
    requires WellKept(w) && job !in w.jobs
    ensures WellKept(AfterUpdateStart(env, w, job, tokenId, doc, signature))
  {
    if UpdateRefusal(env, w, tokenId, doc, signature) == 0 {
      var w' := AfterUpdateStart(env, w, job, tokenId, doc, signature);
      OldJobKeeps(w, w', job, UpdateSigned(tokenId, doc, signature));
    }
  }

  lemma TransferStartKeeps(env: Env, w: World, job: nat, tokenId: string, newOwner: string, signature: string)
    requires WellKept(w) && job !in w.jobs
    ensures WellKept(AfterTransferStart(env, w, job, tokenId, newOwner, signature))
  {
    if TransferRefusal(env, w, tokenId, newOwner, signature) == 0 {
      var w' := AfterTransferStart(env, w, job, tokenId, newOwner, signature);
      OldJobKeeps(w, w', job, TransferSigned(tokenId, ScutUri.Lower(newOwner)));
    }
  }

  lemma StepKeeps(env: Env, w: World, step: Step)
    requires WellKept(w) && Enabled(env, w, step)
    ensures WellKept(Apply(env, w, step))
  {
    match step
    case RegisterStart(job, r, asked, now) => RegisterStartKeeps(env, w, job, r, asked, now);
    case UpdateStart(job, tokenId, doc, signature) => UpdateStartKeeps(env, w, job, tokenId, doc, signature);
    case TransferStart(job, tokenId, newOwner, signature) =>
      TransferStartKeeps(env, w, job, tokenId, newOwner, signature);
    case Tx(job) => TxKeeps(env, w, job);
    case RegisterCommit(job, made, now) => CommitKeeps(w, job, made, now);
    case UpdateCommit(job, now) => EndKeeps(w, AfterUpdate(w, job, now), job);
    case TransferCommit(job, now) => EndKeeps(w, AfterTransfer(w, job, now), job);
    case Fail(job) => EndKeeps(w, w.(jobs := w.jobs - {job}), job);
    case GiveUp(job) => GiveUpKeeps(env, w, job);
    case Outside(call) => CalledKeeps(w, call);
  }

  /** The database only ever speaks of tokens that exist, under their own
      names, and never tries to insert one twice. */
  lemma {:induction false} RunKeeps(env: Env, start: int, steps: seq<Step>)
    requires IsRun(env, start, steps)
    ensures WellKept(Exec(env, start, steps).value)
  {
    if |steps| > 0 {
      var front := steps[..|steps| - 1];
      RunKeeps(env, start, front);
      StepKeeps(env, Exec(env, start, front).value, steps[|steps| - 1]);
    }
  }

  // ---- The daily cap ----

  function RegisterJobs(w: World): set<nat> {
    set j | j in w.jobs && Registering(w.jobs[j])
  }

  /** The clock a step reads, if it reads one. */
  function NowOf(step: Step, clock: int): int {
    match step
    case RegisterStart(_, _, _, now) => now
    case RegisterCommit(_, _, now) => now
    case UpdateCommit(_, now) => now
    case TransferCommit(_, now) => now
    case _ => clock
  }

  /** At this point of the run at most k registrations are in flight, and the
      clock does not run backwards. */
  predicate FineAt(env: Env, start: int, steps: seq<Step>, k: nat, n: nat)
    requires IsRun(env, start, steps) && n <= |steps|
  {
    var w := WorldAt(env, start, steps, n);
    |RegisterJobs(w)| <= k && (n < |steps| ==> w.clock <= NowOf(steps[n], w.clock))
  }

  predicate AtMostInFlight(env: Env, start: int, steps: seq<Step>, k: nat)
    requires IsRun(env, start, steps)
  {
    forall n :: 0 <= n <= |steps| ==> FineAt(env, start, steps, k, n)
  }

  ghost predicate CapInv(env: Env, w: World, k: nat) {
    && (forall day :: day in w.counts ==> day <= Day(w.clock) && w.counts[day] <= env.globalPerDay + k - 1)
    && CountOn(w.counts, Day(w.clock)) + |RegisterJobs(w)| <= env.globalPerDay + k - 1
  }

  lemma StartedJobs(w: World, job: nat, r: Request)
    requires job !in w.jobs
    ensures |RegisterJobs(w.(jobs := w.jobs[job := Minting(r)]))| == |RegisterJobs(w)| + 1
  {
    assert RegisterJobs(w.(jobs := w.jobs[job := Minting(r)])) == RegisterJobs(w) + {job};
  }

  lemma EndedJobs(w: World, job: nat)
    requires job in w.jobs
    ensures |RegisterJobs(w.(jobs := w.jobs - {job}))| == |RegisterJobs(w)| - if Registering(w.jobs[job]) then 1 else 0
  {
    assert RegisterJobs(w.(jobs := w.jobs - {job})) == RegisterJobs(w) - {job};
  }

  /** No registration has started. */
  lemma NoMoreJobs(w: World, w': World)
    requires forall j :: j in w'.jobs && Registering(w'.jobs[j]) ==> j in w.jobs && Registering(w.jobs[j])
    ensures |RegisterJobs(w')| <= |RegisterJobs(w)|
  {
    var more, fewer := RegisterJobs(w), RegisterJobs(w');
    assert fewer <= more && fewer + (more - fewer) == more;
  }

  /** A later clock only helps: no registration of a later day is counted yet. */
  lemma LaterClock(env: Env, w: World, k: nat, now: int)
    requires ValidEnv(env) && CapInv(env, w, k) && w.clock <= now && |RegisterJobs(w)| <= k
    ensures CapInv(env, w.(clock := now), k)
  {
  }

  /** The count and the jobs of a world, from those of another. */
  lemma CapFrom(env: Env, w: World, w': World, k: nat)
    requires CapInv(env, w, k) && w'.clock == w.clock
    requires w'.counts == w.counts && |RegisterJobs(w')| <= |RegisterJobs(w)|
    ensures CapInv(env, w', k)
  {
  }

  /** A registration starts only while its day is below the cap. */
  lemma StartCap(env: Env, w: World, job: nat, r: Request, asked: int, now: int, k: nat)
    requires CapInv(env, w.(clock := now), k) && job !in w.jobs
    requires |RegisterJobs(AfterRegisterStart(env, w, job, r, asked, now))| <= k
    ensures CapInv(env, AfterRegisterStart(env, w, job, r, asked, now), k)
  {
  }

  lemma SameRegisterJobs(w: World, w': World)
    requires w.jobs == w'.jobs
    ensures RegisterJobs(w) == RegisterJobs(w')
  {
  }

  lemma CommitCap(env: Env, w: World, job: nat, made: int, now: int, k: nat)
    requires CapInv(env, w.(clock := now), k) && job in w.jobs && w.jobs[job].Rewritten?
    ensures CapInv(env, AfterRegister(w, job, made, now), k)
  {
    EndedJobs(w, job);
    SameRegisterJobs(w, w.(clock := now));
    SameRegisterJobs(w.(jobs := w.jobs - {job}), AfterRegister(w, job, made, now));
  }

  lemma EndCap(env: Env, w: World, job: nat, w': World, k: nat)
    requires CapInv(env, w.(clock := w'.clock), k) && job in w.jobs
    requires w'.jobs == w.jobs - {job} && w'.counts == w.counts
    ensures CapInv(env, w', k)
  {
    EndedJobs(w, job);
    SameRegisterJobs(w, w.(clock := w'.clock));
    SameRegisterJobs(w.(jobs := w.jobs - {job}), w');
  }

  lemma StepCap(env: Env, w: World, step: Step, k: nat)
    requires ValidEnv(env) && CapInv(env, w, k) && Enabled(env, w, step)
    requires w.clock <= NowOf(step, w.clock)
    requires |RegisterJobs(w)| <= k && |RegisterJobs(Apply(env, w, step))| <= k
    ensures CapInv(env, Apply(env, w, step), k)
  {
    LaterClock(env, w, k, NowOf(step, w.clock));
    match step
    case RegisterStart(job, r, asked, now) => StartCap(env, w, job, r, asked, now, k);
    case RegisterCommit(job, made, now) => CommitCap(env, w, job, made, now, k);
    case UpdateCommit(job, now) => EndCap(env, w, job, AfterUpdate(w, job, now), k);
    case TransferCommit(job, now) => EndCap(env, w, job, AfterTransfer(w, job, now), k);
    case Fail(job) => EndCap(env, w, job, w.(jobs := w.jobs - {job}), k);
    case _ =>
      NoMoreJobs(w, Apply(env, w, step));
      CapFrom(env, w, Apply(env, w, step), k);
  }

  lemma FrontInFlight(env: Env, start: int, steps: seq<Step>, k: nat)
    requires IsRun(env, start, steps) && |steps| > 0 && AtMostInFlight(env, start, steps, k)
    ensures IsRun(env, start, steps[..|steps| - 1]) && AtMostInFlight(env, start, steps[..|steps| - 1], k)
  {
    var front := steps[..|steps| - 1];
    PrefixIsRun(env, start, steps, |steps| - 1);
    forall n | 0 <= n <= |front|
      ensures FineAt(env, start, front, k, n)
    {
      assert front[..n] == steps[..n];
      assert FineAt(env, start, steps, k, n);
    }
  }

  lemma {:induction false} CapInvHolds(env: Env, start: int, steps: seq<Step>, k: nat)
    requires ValidEnv(env) && IsRun(env, start, steps) && AtMostInFlight(env, start, steps, k) && k >= 1
    ensures CapInv(env, Exec(env, start, steps).value, k)
  {
    if |steps| == 0 {
      assert RegisterJobs(Init(start)) == {};
    } else {
      var last := |steps| - 1;
      FrontInFlight(env, start, steps, k);
      CapInvHolds(env, start, steps[..last], k);
      StepAt(env, start, steps, last);
      assert steps[..|steps|] == steps;
      assert FineAt(env, start, steps, k, last) && FineAt(env, start, steps, k, |steps|);
      StepCap(env, WorldAt(env, start, steps, last), steps[last], k);
    }
  }

  /** With at most k registrations in flight, no day's count passes the cap by
      more than k - 1, whatever overlaps and across midnight too. */
  lemma CapHolds(env: Env, start: int, steps: seq<Step>, k: nat, day: int)
    requires ValidEnv(env) && IsRun(env, start, steps) && AtMostInFlight(env, start, steps, k) && k >= 1
    ensures CountOn(Exec(env, start, steps).value.counts, day) <= env.globalPerDay + k - 1
  {
    CapInvHolds(env, start, steps, k);
  }

  // ---- What the counter counts ----

  function CreatedOn(rows: Registrations, day: int): set<string> {
    set id | id in rows && Day(rows[id].createdAt) == day
  }

  /** The registrations whose row, and whose count, fall on the day. */
  function MadeOn(history: seq<Entry>, day: int): nat {
    if |history| == 0 then 0
    else
      var e := history[|history| - 1];
      MadeOn(history[..|history| - 1], day) + if e.Registered? && Day(e.made) == day then 1 else 0
  }

  function CountedOn(history: seq<Entry>, day: int): nat {
    if |history| == 0 then 0
    else
      var e := history[|history| - 1];
      CountedOn(history[..|history| - 1], day) + if e.Registered? && Day(e.counted) == day then 1 else 0
  }

  lemma NextMade(history: seq<Entry>, e: Entry, day: int)
    ensures MadeOn(history + [e], day) == MadeOn(history, day) + if e.Registered? && Day(e.made) == day then 1 else 0
    ensures CountedOn(history + [e], day)
            == CountedOn(history, day) + if e.Registered? && Day(e.counted) == day then 1 else 0
  {
    assert (history + [e])[..|history|] == history;
  }

  predicate Counted(w: World, day: int) {
    CountOn(w.counts, day) == CountedOn(w.history, day) && |CreatedOn(w.rows, day)| == MadeOn(w.history, day)
  }

  lemma OneMoreRow(rows: Registrations, id: string, row: Row, day: int)
    requires id !in rows
    ensures |CreatedOn(rows[id := row], day)| == |CreatedOn(rows, day)| + if Day(row.createdAt) == day then 1 else 0
  {
    if Day(row.createdAt) == day {
      assert CreatedOn(rows[id := row], day) == CreatedOn(rows, day) + {id};
    } else {
      assert CreatedOn(rows[id := row], day) == CreatedOn(rows, day);
    }
  }

  lemma RegisterCounted(w: World, job: nat, made: int, now: int, day: int)
    requires WellKept(w) && Counted(w, day) && job in w.jobs && w.jobs[job].Rewritten?
    ensures Counted(AfterRegister(w, job, made, now), day)
  {
    CommitKeeps(w, job, made, now);
    var id, w' := ScutUri.Decimal(w.jobs[job].token), AfterRegister(w, job, made, now);
    OneMoreRow(w.rows, id, w'.rows[id], day);
    NextMade(w.history, Registered(id, w.jobs[job].request.signingKey, made, now), day);
  }

  lemma MutationCounted(rows: Registrations, tokenId: string, m: Mutation, now: int, day: int)
    ensures CreatedOn(AfterMutation(rows, tokenId, m, now), day) == CreatedOn(rows, day)
  {
  }

  lemma UpdateCounted(w: World, job: nat, now: int, day: int)
    requires Counted(w, day) && job in w.jobs && w.jobs[job].UpdateWritten?
    ensures Counted(AfterUpdate(w, job, now), day)
  {
    var j := w.jobs[job];
    MutationCounted(w.rows, j.tokenId, Mutation(j.doc.signingKey, j.doc.encryptionKey, None), now, day);
    NextMade(w.history, Updated(j.tokenId, j.doc, j.signature, CheckedAt(w, job)), day);
  }

  lemma TransferCounted(w: World, job: nat, now: int, day: int)
    requires Counted(w, day) && job in w.jobs && w.jobs[job].Moved?
    ensures Counted(AfterTransfer(w, job, now), day)
  {
    MutationCounted(w.rows, w.jobs[job].tokenId, Mutation(None, None, Some(false)), now, day);
    NextMade(w.history, Released(w.jobs[job].tokenId), day);
  }

  lemma StepCounted(env: Env, w: World, step: Step, day: int)
    requires WellKept(w) && Counted(w, day) && Enabled(env, w, step)
    ensures Counted(Apply(env, w, step), day)
  {
    match step
    case RegisterCommit(job, made, now) => RegisterCounted(w, job, made, now, day);
    case UpdateCommit(job, now) => UpdateCounted(w, job, now, day);
    case TransferCommit(job, now) => TransferCounted(w, job, now, day);
    case _ => DatabaseStays(env, w, step);
  }

  lemma {:induction false} RunCounted(env: Env, start: int, steps: seq<Step>, day: int)
    requires IsRun(env, start, steps)
    ensures Counted(Exec(env, start, steps).value, day)
  {
    if |steps| == 0 {
      assert CreatedOn(Init(start).rows, day) == {};
    } else {
      var front, last := steps[..|steps| - 1], steps[|steps| - 1];
      RunCounted(env, start, front, day);
      RunKeeps(env, start, front);
      StepCounted(env, Exec(env, start, front).value, last, day);
    }
  }

  /** Rows made before midnight and counted after it, or the other way round for
      a clock that was set back. */
  function Strays(history: seq<Entry>, day: int): (nat, nat) {
    if |history| == 0 then (0, 0)
    else
      var e, rest := history[|history| - 1], Strays(history[..|history| - 1], day);
      if e.Registered? && Day(e.made) == day != Day(e.counted) then (rest.0 + 1, rest.1)
      else if e.Registered? && Day(e.counted) == day != Day(e.made) then (rest.0, rest.1 + 1)
      else rest
  }

  lemma {:induction false} StraysBalance(history: seq<Entry>, day: int)
    ensures MadeOn(history, day) + Strays(history, day).1 == CountedOn(history, day) + Strays(history, day).0
  {
    if |history| > 0 {
      StraysBalance(history[..|history| - 1], day);
    }
  }

  /** The counter of a day is the number of rows created that day, less those
      that were counted on another, and with those that were created on another. */
  lemma CountsAreRegistrations(env: Env, start: int, steps: seq<Step>, day: int)
    requires IsRun(env, start, steps)
    ensures var w := Exec(env, start, steps).value;
            CountOn(w.counts, day) + Strays(w.history, day).0
            == |CreatedOn(w.rows, day)| + Strays(w.history, day).1
  {
    RunCounted(env, start, steps, day);
    StraysBalance(Exec(env, start, steps).value.history, day);
  }

  // ---- Custody ----

  /** A row never disappears, and one that gave up custody stays that way. */
  lemma StepCustody(env: Env, w: World, step: Step, id: string)
    requires Enabled(env, w, step) && id in w.rows
    ensures id in Apply(env, w, step).rows
    ensures Apply(env, w, step).rows[id].custodial ==> w.rows[id].custodial
    ensures w.rows[id].custodial && !Apply(env, w, step).rows[id].custodial ==>
              step.TransferCommit? && w.jobs[step.job].tokenId == id
  {
  }

  predicate CustodyKept(before: World, after: World, id: string) {
    id in before.rows ==> id in after.rows && (after.rows[id].custodial ==> before.rows[id].custodial)
  }

  lemma NextCustody(env: Env, start: int, steps: seq<Step>, id: string, n: nat)
    requires IsRun(env, start, steps) && n < |steps|
    ensures CustodyKept(WorldAt(env, start, steps, n), WorldAt(env, start, steps, n + 1), id)
  {
    StepAt(env, start, steps, n);
    if id in WorldAt(env, start, steps, n).rows {
      StepCustody(env, WorldAt(env, start, steps, n), steps[n], id);
    }
  }

  lemma {:induction false} CustodyNeverReturns(env: Env, start: int, steps: seq<Step>, id: string, lo: nat, hi: nat)
    requires IsRun(env, start, steps) && lo <= hi <= |steps|
    ensures CustodyKept(WorldAt(env, start, steps, lo), WorldAt(env, start, steps, hi), id)
    decreases hi
  {
    if lo < hi {
      CustodyNeverReturns(env, start, steps, id, lo, hi - 1);
      NextCustody(env, start, steps, id, hi - 1);
    }
  }

  // ---- Transfers ----

  /** How often the wallet got the token: by its mint or by a transfer. */
  function Arrivals(moves: seq<Move>, token: nat, wallet: string): nat {
    if |moves| == 0 then 0
    else
      var m := moves[|moves| - 1];
      Arrivals(moves[..|moves| - 1], token, wallet) + if m.token == token && m.recipient == wallet then 1 else 0
  }

  /** How often the service transferred the token. */
  function Departures(moves: seq<Move>, token: nat, wallet: string): nat {
    if |moves| == 0 then 0
    else
      var m := moves[|moves| - 1];
      Departures(moves[..|moves| - 1], token, wallet) + if m.token == token && m.source == Some(wallet) then 1 else 0
  }

  predicate Balanced(w: World, token: nat, wallet: string) {
    Arrivals(w.moves, token, wallet)
    == Departures(w.moves, token, wallet)
       + if token in w.chain.owners && w.chain.owners[token] == wallet then 1 else 0
  }

  function One(yes: bool): nat {
    if yes then 1 else 0
  }

  lemma OneMoreMove(moves: seq<Move>, m: Move, token: nat, wallet: string)
    ensures Arrivals(moves + [m], token, wallet)
            == Arrivals(moves, token, wallet) + One(m.token == token && m.recipient == wallet)
    ensures Departures(moves + [m], token, wallet)
            == Departures(moves, token, wallet) + One(m.token == token && m.source == Some(wallet))
  {
    assert (moves + [m])[..|moves|] == moves;
  }

  lemma CallBalance(w: World, call: Call, token: nat, wallet: string)
    requires Sound(w.chain) && Effect(w.chain, call).Some? && Balanced(w, token, wallet)
    ensures Balanced(Called(w, call), token, wallet)
  {
    if MovesOf(w.chain, call) == [] {
      assert w.moves + MovesOf(w.chain, call) == w.moves;
    } else {
      OneMoreMove(w.moves, MovesOf(w.chain, call)[0], token, wallet);
    }
  }

  lemma StepBalance(env: Env, w: World, step: Step, token: nat)
    requires WellKept(w) && Enabled(env, w, step) && Balanced(w, token, env.wallet)
    ensures Balanced(Apply(env, w, step), token, env.wallet)
  {
    match step
    case Tx(job) => CallBalance(w, TxCall(env, w.jobs[job]).value, token, env.wallet);
    case Outside(call) => CallBalance(w, call, token, env.wallet);
    case _ => ChainStays(env, w, step);
  }

  /** The service has transferred a token exactly as often as its wallet got it,
      less one while the wallet owns it. */
  lemma {:induction false} TransferBalance(env: Env, start: int, steps: seq<Step>, token: nat)
    requires IsRun(env, start, steps)
    ensures Balanced(Exec(env, start, steps).value, token, env.wallet)
  {
    if |steps| > 0 {
      var front := steps[..|steps| - 1];
      TransferBalance(env, start, front, token);
      RunKeeps(env, start, front);
      StepBalance(env, Exec(env, start, front).value, steps[|steps| - 1], token);
    }
  }

  /** A token that came to the wallet only once, by its mint, is transferred at
      most once, however the handlers interleave. */
  lemma AtMostOneTransfer(env: Env, start: int, steps: seq<Step>, token: nat)
    requires IsRun(env, start, steps) && Arrivals(Exec(env, start, steps).value.moves, token, env.wallet) <= 1
    ensures Departures(Exec(env, start, steps).value.moves, token, env.wallet) <= 1
  {
    TransferBalance(env, start, steps, token);
  }

  /** The step is the transaction of a transfer out of the wallet. */
  predicate TransfersToken(env: Env, w: World, step: Step, token: nat)
    requires Enabled(env, w, step)
  {
    && step.Tx? && TxCall(env, w.jobs[step.job]).value.TransferFrom?
    && TxCall(env, w.jobs[step.job]).value.tokenId == token && TxCall(env, w.jobs[step.job]).value.source == env.wallet
  }

  /** The wallet approves nobody, so nobody else moves its tokens. */
  lemma StepUnapproved(env: Env, w: World, step: Step)
    requires WellKept(w) && Enabled(env, w, step) && ApprovesNobody(w.chain, env.wallet)
    requires forall j :: j in w.jobs && w.jobs[j].Forgotten? ==> !Approves(w.jobs[j].call)
    ensures ApprovesNobody(Apply(env, w, step).chain, env.wallet)
  {
    match step
    case Tx(job) => StaysUnapproved(w.chain, TxCall(env, w.jobs[job]).value, env.wallet);
    case Outside(call) => StaysUnapproved(w.chain, call, env.wallet);
    case _ => ChainStays(env, w, step);
  }

  lemma StepForgets(env: Env, w: World, step: Step)
    requires Enabled(env, w, step)
    requires forall j :: j in w.jobs && w.jobs[j].Forgotten? ==> !Approves(w.jobs[j].call)
    ensures var w' := Apply(env, w, step);
            forall j :: j in w'.jobs && w'.jobs[j].Forgotten? ==> !Approves(w'.jobs[j].call)
  {
  }

  /** In every run, though others approve of whom they like. */
  lemma {:induction false} NobodyIsApproved(env: Env, start: int, steps: seq<Step>)
    requires IsRun(env, start, steps)
    ensures var w := Exec(env, start, steps).value;
            && ApprovesNobody(w.chain, env.wallet)
            && forall j :: j in w.jobs && w.jobs[j].Forgotten? ==> !Approves(w.jobs[j].call)
  {
    if |steps| > 0 {
      var front := steps[..|steps| - 1];
      NobodyIsApproved(env, start, front);
      RunKeeps(env, start, front);
      StepUnapproved(env, Exec(env, start, front).value, steps[|steps| - 1]);
      StepForgets(env, Exec(env, start, front).value, steps[|steps| - 1]);
    }
  }

  lemma CallDepartures(w: World, call: Call, token: nat, wallet: string)
    requires Effect(w.chain, call).Some?
    ensures Departures(Called(w, call).moves, token, wallet)
            == Departures(w.moves, token, wallet)
               + One(call.TransferFrom? && call.tokenId == token && call.source == wallet)
  {
    if MovesOf(w.chain, call) == [] {
      assert w.moves + MovesOf(w.chain, call) == w.moves;
    } else {
      OneMoreMove(w.moves, MovesOf(w.chain, call)[0], token, wallet);
    }
  }

  lemma StepDepartures(env: Env, w: World, step: Step, token: nat)
    requires Enabled(env, w, step) && ApprovesNobody(w.chain, env.wallet)
    ensures Departures(Apply(env, w, step).moves, token, env.wallet)
            == Departures(w.moves, token, env.wallet) + One(TransfersToken(env, w, step, token))
  {
    match step
    case Tx(job) => CallDepartures(w, TxCall(env, w.jobs[job]).value, token, env.wallet);
    case Outside(call) =>
      CallDepartures(w, call, token, env.wallet);
      if call.TransferFrom? && call.source == env.wallet {
        MovesHisOwn(w.chain, call, env.wallet);
      }
    case _ => ChainStays(env, w, step);
  }

  /** How many transactions of the service have transferred the token. */
  function Transfers(env: Env, start: int, steps: seq<Step>, token: nat): nat
    requires IsRun(env, start, steps)
    decreases |steps|
  {
    if |steps| == 0 then 0
    else
      var front := steps[..|steps| - 1];
      Transfers(env, start, front, token)
      + One(TransfersToken(env, Exec(env, start, front).value, steps[|steps| - 1], token))
  }

  /** In every run those are all the ways a token has left the wallet. */
  lemma {:induction false} DeparturesAreTransfers(env: Env, start: int, steps: seq<Step>, token: nat)
    requires IsRun(env, start, steps)
    ensures Departures(Exec(env, start, steps).value.moves, token, env.wallet) == Transfers(env, start, steps, token)
  {
    if |steps| > 0 {
      var front := steps[..|steps| - 1];
      DeparturesAreTransfers(env, start, front, token);
      NobodyIsApproved(env, start, front);
      StepDepartures(env, Exec(env, start, front).value, steps[|steps| - 1], token);
    }
  }
}
