/** Runs that show the bounds on the registration service are tight. */
module RegisterWitness {
  import opened Basics
  import opened Contract
  import opened RegisterDb
  import opened RegisterMachine
  import opened RegisterNames
  import opened RegisterRuns
  import opened KeySuccession
  import opened ChainAgreement
  import opened LandingOrder
  import DocCodec
  import ScutUri

  // ---- The daily cap ----

  /** A run with at most k registrations in flight whose clock stands still. */
  predicate Still(env: Env, start: int, steps: seq<Step>, k: nat) {
    && IsRun(env, start, steps) && AtMostInFlight(env, start, steps, k)
    && Exec(env, start, steps).value.clock == start && AsksInOrder(steps)
  }

  lemma StaysFine(env: Env, start: int, steps: seq<Step>, step: Step, k: nat, n: nat)
    requires IsRun(env, start, steps) && IsRun(env, start, steps + [step]) && n <= |steps|
    requires FineAt(env, start, steps, k, n)
    requires n == |steps| ==> Exec(env, start, steps).value.clock <= NowOf(step, Exec(env, start, steps).value.clock)
    ensures FineAt(env, start, steps + [step], k, n)
  {
    assert (steps + [step])[..n] == steps[..n];
    assert n == |steps| ==> steps[..n] == steps;
  }

  lemma EndsFine(env: Env, start: int, steps: seq<Step>, k: nat)
    requires IsRun(env, start, steps) && |RegisterJobs(Exec(env, start, steps).value)| <= k
    ensures FineAt(env, start, steps, k, |steps|)
  {
    assert steps[..|steps|] == steps;
  }

  lemma JobsInFlight(env: Env, start: int, steps: seq<Step>, k: nat)
    requires IsRun(env, start, steps) && AtMostInFlight(env, start, steps, k)
    ensures |RegisterJobs(Exec(env, start, steps).value)| <= k
  {
    assert FineAt(env, start, steps, k, |steps|);
    assert steps[..|steps|] == steps;
  }

  lemma ThenStill(env: Env, start: int, steps: seq<Step>, step: Step, k: nat)
    requires Still(env, start, steps, k) && Enabled(env, Exec(env, start, steps).value, step)
    requires NowOf(step, start) == start && Apply(env, Exec(env, start, steps).value, step).clock == start
    requires step.RegisterStart? ==> step.asked <= step.now
    requires |RegisterJobs(Apply(env, Exec(env, start, steps).value, step))| <= k
    ensures Still(env, start, steps + [step], k)
    ensures Exec(env, start, steps + [step]).value == Apply(env, Exec(env, start, steps).value, step)
  {
    var longer := steps + [step];
    Then(env, start, steps, step);
    EndsFine(env, start, longer, k);
    forall n | 0 <= n <= |longer|
      ensures FineAt(env, start, longer, k, n)
    {
      if n <= |steps| {
        StaysFine(env, start, steps, step, k, n);
      }
    }
  }

  function TodaysCount(env: Env, start: int, steps: seq<Step>): nat
    requires IsRun(env, start, steps)
  {
    CountOn(Exec(env, start, steps).value.counts, Day(start))
  }

  /** One of the transactions of a registration. */
  lemma NextTx(env: Env, start: int, steps: seq<Step>, job: nat, k: nat)
    requires ValidEnv(env) && Still(env, start, steps, k) && job in Exec(env, start, steps).value.jobs
    requires TxEnabled(env, Exec(env, start, steps).value, job)
    requires Registering(Exec(env, start, steps).value.jobs[job])
    ensures var w, w' := Exec(env, start, steps).value, Apply(env, Exec(env, start, steps).value, Tx(job));
            && Still(env, start, steps + [Tx(job)], k)
            && Exec(env, start, steps + [Tx(job)]).value == w'
            && w'.counts == w.counts && w'.jobs - {job} == w.jobs - {job} && w'.rows == w.rows
  {
    var w := Exec(env, start, steps).value;
    var w' := Apply(env, w, Tx(job));
    NoMoreJobs(w, w');
    JobsInFlight(env, start, steps, k);
    ThenStill(env, start, steps, Tx(job), k);
  }

  /** The rows registered under a name today. */
  function TodaysNamed(env: Env, start: int, steps: seq<Step>, name: string): nat
    requires IsRun(env, start, steps)
  {
    |NamedToday(Exec(env, start, steps).value, name)|
  }

  /** One more row, perhaps of this name. */
  lemma OneMoreNamed(rows: Registrations, id: string, row: Row, name: string, since: int)
    requires id !in rows && row.createdAt >= since
    ensures |NamedSince(rows[id := row], name, since)|
            == |NamedSince(rows, name, since)| + if row.displayName == Some(name) then 1 else 0
  {
    if row.displayName == Some(name) {
      assert NamedSince(rows[id := row], name, since) == NamedSince(rows, name, since) + {id};
    } else {
      assert NamedSince(rows[id := row], name, since) == NamedSince(rows, name, since);
    }
  }

  function Times(r: Request, name: string, n: nat): nat {
    if r.displayName == Some(name) then n else 0
  }

  lemma CommitNamed(w: World, job: nat, start: int, name: string)
    requires job in w.jobs && w.jobs[job].Rewritten? && w.clock == start
    requires ScutUri.Decimal(w.jobs[job].token) !in w.rows
    ensures |NamedToday(AfterRegister(w, job, start, start), name)|
            == |NamedToday(w, name)| + Times(w.jobs[job].request, name, 1)
  {
    var id, w' := ScutUri.Decimal(w.jobs[job].token), AfterRegister(w, job, start, start);
    OneMoreNamed(w.rows, id, w'.rows[id], name, start - 86_400);
  }

  /** Both transactions of a registration land. */
  lemma RewritesDocument(env: Env, start: int, steps: seq<Step>, job: nat, k: nat) returns (longer: seq<Step>)
    requires ValidEnv(env) && Still(env, start, steps, k)
    requires job in Exec(env, start, steps).value.jobs && Exec(env, start, steps).value.jobs[job].Minting?
    ensures Still(env, start, longer, k)
    ensures var w, w' := Exec(env, start, steps).value, Exec(env, start, longer).value;
            && w'.counts == w.counts && w'.jobs - {job} == w.jobs - {job} && w'.rows == w.rows
            && job in w'.jobs && w'.jobs[job].Rewritten? && w'.jobs[job].request == w.jobs[job].request
  {
    var w0 := Exec(env, start, steps).value;
    NextTx(env, start, steps, job, k);
    var minted := steps + [Tx(job)];
    var w1 := Exec(env, start, minted).value;
    assert w1.jobs[job] == Minted(w0.jobs[job].request, w0.chain.nextTokenId);
    NextTx(env, start, minted, job, k);
    longer := minted + [Tx(job)];
  }

  /** And it is written down. */
  lemma Commit(env: Env, start: int, steps: seq<Step>, job: nat, k: nat, name: string) returns (longer: seq<Step>)
    requires ValidEnv(env) && Still(env, start, steps, k)
    requires job in Exec(env, start, steps).value.jobs && Exec(env, start, steps).value.jobs[job].Rewritten?
    ensures Still(env, start, longer, k)
    ensures Exec(env, start, longer).value.jobs == Exec(env, start, steps).value.jobs - {job}
    ensures TodaysCount(env, start, longer) == TodaysCount(env, start, steps) + 1
    ensures TodaysNamed(env, start, longer, name)
            == TodaysNamed(env, start, steps, name) + Times(Exec(env, start, steps).value.jobs[job].request, name, 1)
  {
    var w := Exec(env, start, steps).value;
    RunKeeps(env, start, steps);
    CommitKeeps(w, job, start, start);
    CommitNamed(w, job, start, name);
    EndedJobs(w, job);
    SameRegisterJobs(w.(jobs := w.jobs - {job}), AfterRegister(w, job, start, start));
    JobsInFlight(env, start, steps, k);
    ThenStill(env, start, steps, RegisterCommit(job, start, start), k);
    longer := steps + [RegisterCommit(job, start, start)];
  }

  /** A registration that has started runs to its end. */
  lemma Finish(env: Env, start: int, steps: seq<Step>, job: nat, k: nat, name: string) returns (longer: seq<Step>)
    requires ValidEnv(env) && Still(env, start, steps, k)
    requires job in Exec(env, start, steps).value.jobs && Exec(env, start, steps).value.jobs[job].Minting?
    ensures Still(env, start, longer, k)
    ensures Exec(env, start, longer).value.jobs == Exec(env, start, steps).value.jobs - {job}
    ensures TodaysCount(env, start, longer) == TodaysCount(env, start, steps) + 1
    ensures TodaysNamed(env, start, longer, name)
            == TodaysNamed(env, start, steps, name) + Times(Exec(env, start, steps).value.jobs[job].request, name, 1)
  {
    var rewritten := RewritesDocument(env, start, steps, job, k);
    SameNamed(Exec(env, start, steps).value, Exec(env, start, rewritten).value, name);
    longer := Commit(env, start, rewritten, job, k, name);
    assert Exec(env, start, rewritten).value.jobs - {job} == Exec(env, start, steps).value.jobs - {job};
  }

  lemma SameNamed(w: World, w': World, name: string)
    requires w'.rows == w.rows && w'.clock == w.clock
    ensures NamedToday(w', name) == NamedToday(w, name)
  {
  }

  const ANYONE := Request("k", "x", None, "")

  predicate NameIsNew(w: World, r: Request) {
    r.displayName.Some? ==> NamedToday(w, r.displayName.value) == {}
  }

  /** n registrations that all start before the first of them is counted. */
  lemma Burst(env: Env, start: int, steps: seq<Step>, r: Request, n: nat, next: nat, k: nat, name: string)
    returns (longer: seq<Step>)
    requires ValidEnv(env) && Still(env, start, steps, k) && WellFormedRequest(r)
    requires NameIsNew(Exec(env, start, steps).value, r)
    requires TodaysCount(env, start, steps) < env.globalPerDay
    requires |RegisterJobs(Exec(env, start, steps).value)| + n <= k
    requires forall j :: j in Exec(env, start, steps).value.jobs ==> j < next
    ensures Still(env, start, longer, k)
    ensures Exec(env, start, longer).value.jobs == Exec(env, start, steps).value.jobs
    ensures TodaysCount(env, start, longer) == TodaysCount(env, start, steps) + n
    ensures TodaysNamed(env, start, longer, name) == TodaysNamed(env, start, steps, name) + Times(r, name, n)
    decreases n
  {
    if n == 0 {
      longer := steps;
    } else {
      var w := Exec(env, start, steps).value;
      var started := OneStarts(env, start, steps, r, next, k);
      SameNamed(w, Exec(env, start, started).value, name);
      var others := Burst(env, start, started, r, n - 1, next + 1, k, name);
      assert Exec(env, start, others).value.jobs[next] == Minting(r);
      longer := Finish(env, start, others, next, k, name);
      assert w.jobs[next := Minting(r)] - {next} == w.jobs;
    }
  }

  lemma OneStarts(env: Env, start: int, steps: seq<Step>, r: Request, job: nat, k: nat) returns (started: seq<Step>)
    requires ValidEnv(env) && Still(env, start, steps, k) && WellFormedRequest(r)
    requires NameIsNew(Exec(env, start, steps).value, r)
    requires TodaysCount(env, start, steps) < env.globalPerDay
    requires |RegisterJobs(Exec(env, start, steps).value)| < k && job !in Exec(env, start, steps).value.jobs
    ensures Still(env, start, started, k)
    ensures var w := Exec(env, start, steps).value;
            && Exec(env, start, started).value == w.(jobs := w.jobs[job := Minting(r)])
            && |RegisterJobs(Exec(env, start, started).value)| == |RegisterJobs(w)| + 1
  {
    var w, step := Exec(env, start, steps).value, RegisterStart(job, r, start, start);
    StartedJobs(w, job, r);
    SameRegisterJobs(w.(jobs := w.jobs[job := Minting(r)]), Apply(env, w, step));
    ThenStill(env, start, steps, step, k);
    started := steps + [step];
  }

  lemma {:induction false} OneByOne(env: Env, start: int, n: nat, k: nat) returns (steps: seq<Step>)
    requires ValidEnv(env) && k >= 1 && n <= env.globalPerDay
    ensures Still(env, start, steps, k) && Exec(env, start, steps).value.jobs == map[]
    ensures TodaysCount(env, start, steps) == n
  {
    if n == 0 {
      steps := [];
      assert RegisterJobs(Init(start)) == {};
    } else {
      var before := OneByOne(env, start, n - 1, k);
      assert RegisterJobs(Exec(env, start, before).value) == {};
      steps := Burst(env, start, before, ANYONE, 1, 0, k, "");
    }
  }

  /** The bound of CapHolds is reached, for every cap and every k. */
  lemma CapReached(env: Env, start: int, k: nat) returns (steps: seq<Step>)
    requires ValidEnv(env) && k >= 1
    ensures IsRun(env, start, steps) && AtMostInFlight(env, start, steps, k)
    ensures CountOn(Exec(env, start, steps).value.counts, Day(start)) == env.globalPerDay + k - 1
  {
    var full := OneByOne(env, start, env.globalPerDay - 1, k);
    assert RegisterJobs(Exec(env, start, full).value) == {};
    steps := Burst(env, start, full, ANYONE, k, 0, k, "");
  }

  /** And so is that of NameLimitHolds, for every name and every k. */
  lemma NameLimitReached(env: Env, start: int, r: Request, name: string, k: nat) returns (steps: seq<Step>)
    requires ValidEnv(env) && k >= 1 && WellFormedRequest(r) && r.displayName == Some(name)
    ensures IsRun(env, start, steps) && AtMostInFlight(env, start, steps, k) && AsksInOrder(steps)
    ensures |NamedToday(Exec(env, start, steps).value, name)| == k
  {
    assert RegisterJobs(Init(start)) == {} && NamedToday(Init(start), name) == {};
    StartsStill(env, start, k);
    steps := Burst(env, start, [], r, k, 0, k, name);
  }

  lemma StartsStill(env: Env, start: int, k: nat)
    ensures Still(env, start, [], k)
  {
    assert RegisterJobs(Init(start)) == {};
  }

  // ---- A registered token ----

  const FIRST_TOKEN := ScutUri.Decimal(1)

  /** A token that the service keeps, with no handler under way. */
  predicate IdleToken(env: Env, start: int, steps: seq<Step>, id: string) {
    && IsRun(env, start, steps)
    && var w := Exec(env, start, steps).value;
       w.jobs == map[] && Custodial(w, id) && WalletOwns(env, w.chain, ScutUri.NumberOf(id))
  }

  lemma RegisterStarts(env: Env, start: int, r: Request)
    requires ValidEnv(env) && WellFormedRequest(r)
    ensures var steps := [RegisterStart(0, r, start, start)];
            IsRun(env, start, steps) && Exec(env, start, steps).value == Init(start).(jobs := map[0 := Minting(r)])
  {
    assert r.displayName.Some? ==> NamedSince(map[], r.displayName.value, start - DAY_SECONDS) == {};
    Then(env, start, [], RegisterStart(0, r, start, start));
    assert [] + [RegisterStart(0, r, start, start)] == [RegisterStart(0, r, start, start)];
  }

  lemma RegisterLands(env: Env, start: int, r: Request) returns (steps: seq<Step>)
    requires ValidEnv(env) && WellFormedRequest(r)
    ensures IsRun(env, start, steps)
    ensures var w := Exec(env, start, steps).value;
            && w.rows == map[] && w.jobs == map[0 := Rewritten(r, 1)] && WalletOwns(env, w.chain, 1)
    ensures steps == [RegisterStart(0, r, start, start)] + [Tx(0)] + [Tx(0)]
  {
    RegisterStarts(env, start, r);
    var one := [RegisterStart(0, r, start, start)];
    Then(env, start, one, Tx(0));
    var two := one + [Tx(0)];
    Then(env, start, two, Tx(0));
    steps := two + [Tx(0)];
  }

  /** Registering one agent leads there. */
  lemma RegisterFirst(env: Env, start: int, r: Request) returns (steps: seq<Step>)
    requires ValidEnv(env) && WellFormedRequest(r)
    ensures IdleToken(env, start, steps, FIRST_TOKEN)
    ensures KeyOf(Exec(env, start, steps).value, FIRST_TOKEN) == Some(r.signingKey)
    ensures forall n :: 0 <= n < |steps| ==> steps[n].RegisterStart? || steps[n].Tx? || steps[n].RegisterCommit?
  {
    var three := RegisterLands(env, start, r);
    Then(env, start, three, RegisterCommit(0, start, start));
    steps := three + [RegisterCommit(0, start, start)];
    assert ScutUri.NumberOf(FIRST_TOKEN) == 1;
  }

  // ---- Overlapping updates ----

  /** Two documents for a token, both signed with its key, that bring two keys
      other than that. */
  predicate TwoUpdates(env: Env, key: Option<string>, id: string, doc1: Doc, signature1: string,
                       doc2: Doc, signature2: string) {
    && SignedBy(env, key, id, doc1, signature1) && SignedBy(env, key, id, doc2, signature2)
    && Carried(doc1.signingKey) && Carried(doc2.signingKey) && doc1.signingKey != doc2.signingKey
    && !SignedBy(env, doc1.signingKey, id, doc2, signature2)
  }

  lemma BothStart(env: Env, start: int, steps: seq<Step>, id: string,
                  doc1: Doc, signature1: string, doc2: Doc, signature2: string)
    requires IdleToken(env, start, steps, id)
    requires TwoUpdates(env, KeyOf(Exec(env, start, steps).value, id), id, doc1, signature1, doc2, signature2)
    ensures var w, both := Exec(env, start, steps).value,
                           steps + [UpdateStart(0, id, doc1, signature1)] + [UpdateStart(1, id, doc2, signature2)];
            && IsRun(env, start, both)
            && Exec(env, start, both).value
               == w.(jobs := map[0 := UpdateSigned(id, doc1, signature1)][1 := UpdateSigned(id, doc2, signature2)],
                     checked := w.checked[0 := |w.history|][1 := |w.history|])
  {
    Then(env, start, steps, UpdateStart(0, id, doc1, signature1));
    Then(env, start, steps + [UpdateStart(0, id, doc1, signature1)], UpdateStart(1, id, doc2, signature2));
  }

  /** A transaction of an update of this token, and its acceptance. */
  lemma Lands(env: Env, start: int, steps: seq<Step>, job: nat, id: string)
    requires ValidEnv(env) && IsRun(env, start, steps) && job in Exec(env, start, steps).value.jobs
    requires Custodial(Exec(env, start, steps).value, id)
    requires WalletOwns(env, Exec(env, start, steps).value.chain, ScutUri.NumberOf(id))
    requires Exec(env, start, steps).value.jobs[job].UpdateSigned?
    requires Exec(env, start, steps).value.jobs[job].tokenId == id
    ensures IsRun(env, start, steps + [Tx(job)])
    ensures var w, w' := Exec(env, start, steps).value, Exec(env, start, steps + [Tx(job)]).value;
            && w'.history == w.history && w'.rows == w.rows
            && w'.jobs == w.jobs[job := UpdateWritten(id, w.jobs[job].doc, w.jobs[job].signature)]
            && WalletOwns(env, w'.chain, ScutUri.NumberOf(id))
            && w'.chain.uris[ScutUri.NumberOf(id)] == env.encode(w.jobs[job].doc)
  {
    Then(env, start, steps, Tx(job));
  }

  lemma IsAccepted(env: Env, start: int, steps: seq<Step>, job: nat, now: int, id: string)
    requires IsRun(env, start, steps) && job in Exec(env, start, steps).value.jobs
    requires Custodial(Exec(env, start, steps).value, id)
    requires Exec(env, start, steps).value.jobs[job].UpdateWritten?
    requires Exec(env, start, steps).value.jobs[job].tokenId == id
    requires Carried(Exec(env, start, steps).value.jobs[job].doc.signingKey)
    ensures IsRun(env, start, steps + [UpdateCommit(job, now)])
    ensures var w, w' := Exec(env, start, steps).value, Exec(env, start, steps + [UpdateCommit(job, now)]).value;
            && w'.jobs == w.jobs - {job} && w'.chain == w.chain && Custodial(w', id)
            && KeyOf(w', id) == w.jobs[job].doc.signingKey
            && w'.history == w.history + [Updated(id, w.jobs[job].doc, w.jobs[job].signature, CheckedAt(w, job))]
  {
    Then(env, start, steps, UpdateCommit(job, now));
  }

  /** The second update is accepted after the first has put another key in
      force. */
  lemma OverlapBreaksSuccession(env: Env, start: int, steps: seq<Step>, id: string,
                                doc1: Doc, signature1: string, doc2: Doc, signature2: string)
    returns (longer: seq<Step>)
    requires ValidEnv(env) && IdleToken(env, start, steps, id)
    requires TwoUpdates(env, KeyOf(Exec(env, start, steps).value, id), id, doc1, signature1, doc2, signature2)
    ensures IsRun(env, start, longer) && !Succession(env, Exec(env, start, longer).value.history, id)
  {
    BothStart(env, start, steps, id, doc1, signature1, doc2, signature2);
    var both := steps + [UpdateStart(0, id, doc1, signature1)] + [UpdateStart(1, id, doc2, signature2)];
    Lands(env, start, both, 0, id);
    IsAccepted(env, start, both + [Tx(0)], 0, start, id);
    var one := both + [Tx(0)] + [UpdateCommit(0, start)];
    Lands(env, start, one, 1, id);
    IsAccepted(env, start, one + [Tx(1)], 1, start, id);
    longer := one + [Tx(1)] + [UpdateCommit(1, start)];
    SecondIsStale(env, Exec(env, start, one).value.history, Exec(env, start, longer).value.history, id);
    DatabaseHoldsLastKey(env, start, one, id);
  }

  lemma SecondIsStale(env: Env, before: seq<Entry>, history: seq<Entry>, id: string)
    requires |history| == |before| + 1 && history[..|before|] == before
    requires IsUpdate(history, |before|, id)
    ensures !SignedBy(env, KeyInForce(before, id), id, history[|before|].doc, history[|before|].signature)
            ==> !Succession(env, history, id)
  {
  }

  /** Nothing fails and nothing is lost: two updates land in one order and are
      accepted in the other. The token stands idle with the second document's
      key on the chain and the first one's in the database. */
  lemma OutOfOrderBreaksAgreement(env: Env, start: int, steps: seq<Step>, id: string,
                                  doc1: Doc, signature1: string, doc2: Doc, signature2: string)
    returns (longer: seq<Step>)
    requires ValidEnv(env) && IdleToken(env, start, steps, id)
    requires TwoUpdates(env, KeyOf(Exec(env, start, steps).value, id), id, doc1, signature1, doc2, signature2)
    ensures longer == steps + [UpdateStart(0, id, doc1, signature1)] + [UpdateStart(1, id, doc2, signature2)]
                      + [Tx(0)] + [Tx(1)] + [UpdateCommit(1, start)] + [UpdateCommit(0, start)]
    ensures IdleToken(env, start, longer, id) && !RowOnChain(env, Exec(env, start, longer).value, id)
  {
    BothStart(env, start, steps, id, doc1, signature1, doc2, signature2);
    var both := steps + [UpdateStart(0, id, doc1, signature1)] + [UpdateStart(1, id, doc2, signature2)];
    Lands(env, start, both, 0, id);
    Lands(env, start, both + [Tx(0)], 1, id);
    var landed := both + [Tx(0)] + [Tx(1)];
    IsAccepted(env, start, landed, 1, start, id);
    IsAccepted(env, start, landed + [UpdateCommit(1, start)], 0, start, id);
    longer := landed + [UpdateCommit(1, start)] + [UpdateCommit(0, start)];
    assert env.decode(env.encode(doc2)) == Some(doc2);
  }

  lemma ThenOrderly(env: Env, start: int, steps: seq<Step>, step: Step, id: string)
    requires IsRun(env, start, steps) && Orderly(env, start, steps, id)
    requires Enabled(env, Exec(env, start, steps).value, step)
    requires !Disorder(Exec(env, start, steps).value, Waiting(env, start, steps, id), step, id)
    ensures IsRun(env, start, steps + [step]) && Orderly(env, start, steps + [step], id)
    ensures Waiting(env, start, steps + [step], id)
            == NextWaiting(Waiting(env, start, steps, id), Exec(env, start, steps).value, step, id)
  {
    var longer := steps + [step];
    Then(env, start, steps, step);
    assert longer[..|steps|] == steps;
    forall n | 0 <= n < |longer|
      ensures !Disorder(WorldAt(env, start, longer, n), WaitingAt(env, start, longer, n, id), longer[n], id)
    {
      if n < |steps| {
        assert longer[..n] == steps[..n];
        assert !Disorder(WorldAt(env, start, steps, n), WaitingAt(env, start, steps, n, id), steps[n], id);
      }
    }
  }

  lemma BothStartOrderly(env: Env, start: int, steps: seq<Step>, id: string,
                         doc1: Doc, signature1: string, doc2: Doc, signature2: string)
    requires ValidEnv(env) && IdleToken(env, start, steps, id) && Orderly(env, start, steps, id)
    requires TwoUpdates(env, KeyOf(Exec(env, start, steps).value, id), id, doc1, signature1, doc2, signature2)
    ensures var both := steps + [UpdateStart(0, id, doc1, signature1)] + [UpdateStart(1, id, doc2, signature2)];
            IsRun(env, start, both) && Orderly(env, start, both, id) && Waiting(env, start, both, id) == []
  {
    RunTracked(env, start, steps, id);
    NobodyInLine(Exec(env, start, steps).value, Waiting(env, start, steps, id), id);
    BothStart(env, start, steps, id, doc1, signature1, doc2, signature2);
    ThenOrderly(env, start, steps, UpdateStart(0, id, doc1, signature1), id);
    ThenOrderly(env, start, steps + [UpdateStart(0, id, doc1, signature1)], UpdateStart(1, id, doc2, signature2), id);
  }

  lemma LandsOrderly(env: Env, start: int, steps: seq<Step>, job: nat, id: string)
    requires IsRun(env, start, steps) && IsRun(env, start, steps + [Tx(job)])
    requires job in Exec(env, start, steps).value.jobs
    requires Exec(env, start, steps).value.jobs[job].UpdateSigned?
    requires Exec(env, start, steps).value.jobs[job].tokenId == id
    requires Orderly(env, start, steps, id)
    ensures Orderly(env, start, steps + [Tx(job)], id)
    ensures Waiting(env, start, steps + [Tx(job)], id) == Waiting(env, start, steps, id) + [job]
  {
    assert (steps + [Tx(job)])[..|steps|] == steps;
    ThenOrderly(env, start, steps, Tx(job), id);
  }

  lemma IsAcceptedOrderly(env: Env, start: int, steps: seq<Step>, job: nat, now: int, id: string)
    requires IsRun(env, start, steps) && job in Exec(env, start, steps).value.jobs
    requires Exec(env, start, steps).value.jobs[job].UpdateWritten? && Orderly(env, start, steps, id)
    requires Waiting(env, start, steps, id) != [] && Waiting(env, start, steps, id)[0] == job
    ensures IsRun(env, start, steps + [UpdateCommit(job, now)])
    ensures Orderly(env, start, steps + [UpdateCommit(job, now)], id)
    ensures Waiting(env, start, steps + [UpdateCommit(job, now)], id) == Minus(Waiting(env, start, steps, id), job)
  {
    ThenOrderly(env, start, steps, UpdateCommit(job, now), id);
  }

  /** Both land, */
  lemma BothLand(env: Env, start: int, steps: seq<Step>, id: string,
                 doc1: Doc, signature1: string, doc2: Doc, signature2: string)
    returns (landed: seq<Step>)
    requires ValidEnv(env) && IdleToken(env, start, steps, id)
    requires TwoUpdates(env, KeyOf(Exec(env, start, steps).value, id), id, doc1, signature1, doc2, signature2)
    ensures IsRun(env, start, landed)
    ensures var w := Exec(env, start, landed).value;
            && Custodial(w, id) && WalletOwns(env, w.chain, ScutUri.NumberOf(id)) && w.jobs.Keys == {0, 1}
            && w.jobs[0] == UpdateWritten(id, doc1, signature1) && w.jobs[1] == UpdateWritten(id, doc2, signature2)
    ensures Orderly(env, start, steps, id) ==>
              Orderly(env, start, landed, id) && Waiting(env, start, landed, id) == [0, 1]
    ensures landed == steps + [UpdateStart(0, id, doc1, signature1)] + [UpdateStart(1, id, doc2, signature2)]
                      + [Tx(0)] + [Tx(1)]
  {
    BothStart(env, start, steps, id, doc1, signature1, doc2, signature2);
    var both := steps + [UpdateStart(0, id, doc1, signature1)] + [UpdateStart(1, id, doc2, signature2)];
    TwoLand(env, start, both, id);
    landed := both + [Tx(0)] + [Tx(1)];
    if Orderly(env, start, steps, id) {
      BothStartOrderly(env, start, steps, id, doc1, signature1, doc2, signature2);
      TwoLandOrderly(env, start, both, id);
    }
  }

  predicate TwoSigned(w: World, id: string) {
    && w.jobs.Keys == {0, 1}
    && w.jobs[0].UpdateSigned? && w.jobs[0].tokenId == id && w.jobs[1].UpdateSigned? && w.jobs[1].tokenId == id
  }

  lemma TwoLand(env: Env, start: int, both: seq<Step>, id: string)
    requires ValidEnv(env) && IsRun(env, start, both) && TwoSigned(Exec(env, start, both).value, id)
    requires var w := Exec(env, start, both).value; Custodial(w, id) && WalletOwns(env, w.chain, ScutUri.NumberOf(id))
    ensures IsRun(env, start, both + [Tx(0)]) && IsRun(env, start, both + [Tx(0)] + [Tx(1)])
    ensures var w, w1 := Exec(env, start, both).value, Exec(env, start, both + [Tx(0)]).value;
            w1.jobs == w.jobs[0 := UpdateWritten(id, w.jobs[0].doc, w.jobs[0].signature)]
    ensures var w, w' := Exec(env, start, both).value, Exec(env, start, both + [Tx(0)] + [Tx(1)]).value;
            && Custodial(w', id) && WalletOwns(env, w'.chain, ScutUri.NumberOf(id)) && w'.jobs.Keys == {0, 1}
            && w'.jobs[0] == UpdateWritten(id, w.jobs[0].doc, w.jobs[0].signature)
            && w'.jobs[1] == UpdateWritten(id, w.jobs[1].doc, w.jobs[1].signature)
  {
    Lands(env, start, both, 0, id);
    Lands(env, start, both + [Tx(0)], 1, id);
  }

  lemma TwoLandOrderly(env: Env, start: int, both: seq<Step>, id: string)
    requires IsRun(env, start, both) && TwoSigned(Exec(env, start, both).value, id)
    requires IsRun(env, start, both + [Tx(0)]) && IsRun(env, start, both + [Tx(0)] + [Tx(1)])
    requires 1 in Exec(env, start, both + [Tx(0)]).value.jobs
    requires Exec(env, start, both + [Tx(0)]).value.jobs[1] == Exec(env, start, both).value.jobs[1]
    requires Orderly(env, start, both, id) && Waiting(env, start, both, id) == []
    ensures Orderly(env, start, both + [Tx(0)] + [Tx(1)], id)
    ensures Waiting(env, start, both + [Tx(0)] + [Tx(1)], id) == [0, 1]
  {
    LandsOrderly(env, start, both, 0, id);
    LandsOrderly(env, start, both + [Tx(0)], 1, id);
  }

  lemma TwoAccepted(env: Env, start: int, landed: seq<Step>, id: string) returns (longer: seq<Step>)
    requires ValidEnv(env) && IsRun(env, start, landed)
    requires var w := Exec(env, start, landed).value;
             && Custodial(w, id) && w.jobs.Keys == {0, 1}
             && w.jobs[0].UpdateWritten? && w.jobs[0].tokenId == id && Carried(w.jobs[0].doc.signingKey)
             && w.jobs[1].UpdateWritten? && w.jobs[1].tokenId == id && Carried(w.jobs[1].doc.signingKey)
    requires Orderly(env, start, landed, id) && Waiting(env, start, landed, id) == [0, 1]
    ensures IsRun(env, start, longer) && Orderly(env, start, longer, id)
    ensures var w' := Exec(env, start, longer).value;
            && w'.jobs == map[] && Custodial(w', id)
            && KeyOf(w', id) == Exec(env, start, landed).value.jobs[1].doc.signingKey
    ensures longer == landed + [UpdateCommit(0, start)] + [UpdateCommit(1, start)]
  {
    IsAccepted(env, start, landed, 0, start, id);
    IsAcceptedOrderly(env, start, landed, 0, start, id);
    assert Minus([0, 1], 0) == [1];
    var next := landed + [UpdateCommit(0, start)];
    IsAccepted(env, start, next, 1, start, id);
    IsAcceptedOrderly(env, start, next, 1, start, id);
    longer := next + [UpdateCommit(1, start)];
  }

  /** and are accepted in the order in which they landed: all is well. */
  lemma InOrderKeepsAgreement(env: Env, start: int, steps: seq<Step>, id: string,
                              doc1: Doc, signature1: string, doc2: Doc, signature2: string)
    returns (longer: seq<Step>)
    requires ValidEnv(env) && IdleToken(env, start, steps, id) && Orderly(env, start, steps, id)
    requires TwoUpdates(env, KeyOf(Exec(env, start, steps).value, id), id, doc1, signature1, doc2, signature2)
    ensures IsRun(env, start, longer) && Orderly(env, start, longer, id)
    ensures var w := Exec(env, start, longer).value;
            w.jobs == map[] && Custodial(w, id) && RowOnChain(env, w, id) && KeyOf(w, id) == doc2.signingKey
    ensures longer == steps + [UpdateStart(0, id, doc1, signature1)] + [UpdateStart(1, id, doc2, signature2)]
                      + [Tx(0)] + [Tx(1)] + [UpdateCommit(0, start)] + [UpdateCommit(1, start)]
  {
    var landed := BothLand(env, start, steps, id, doc1, signature1, doc2, signature2);
    longer := TwoAccepted(env, start, landed, id);
    DatabaseAgreesWithChain(env, start, longer, id);
  }

  /** And nothing overlaps: an update lands, and its handler fails. */
  lemma LostReceiptBreaksAgreement(env: Env, start: int, steps: seq<Step>, id: string, doc: Doc, signature: string)
    returns (longer: seq<Step>)
    requires ValidEnv(env) && IdleToken(env, start, steps, id)
    requires SignedBy(env, KeyOf(Exec(env, start, steps).value, id), id, doc, signature)
    requires Carried(doc.signingKey) && doc.signingKey != KeyOf(Exec(env, start, steps).value, id)
    ensures longer == steps + [UpdateStart(0, id, doc, signature)] + [Tx(0)] + [Fail(0)]
    ensures IdleToken(env, start, longer, id) && !RowOnChain(env, Exec(env, start, longer).value, id)
  {
    Then(env, start, steps, UpdateStart(0, id, doc, signature));
    var started := steps + [UpdateStart(0, id, doc, signature)];
    Lands(env, start, started, 0, id);
    Then(env, start, started + [Tx(0)], Fail(0));
    longer := started + [Tx(0)] + [Fail(0)];
    assert env.decode(env.encode(doc)) == Some(doc);
  }

  /** And nobody's transaction fails: the handler gives up while its transaction
      is pending, and that lands afterwards. */
  lemma LateLandingBreaksAgreement(env: Env, start: int, steps: seq<Step>, id: string, doc: Doc, signature: string)
    returns (longer: seq<Step>)
    requires ValidEnv(env) && IdleToken(env, start, steps, id)
    requires SignedBy(env, KeyOf(Exec(env, start, steps).value, id), id, doc, signature)
    requires Carried(doc.signingKey) && doc.signingKey != KeyOf(Exec(env, start, steps).value, id)
    ensures longer == steps + [UpdateStart(0, id, doc, signature)] + [GiveUp(0)] + [Tx(0)]
    ensures IsRun(env, start, longer)
    ensures var w := Exec(env, start, longer).value;
            w.jobs == map[0 := Spent] && Custodial(w, id) && !RowOnChain(env, w, id)
  {
    var started := steps + [UpdateStart(0, id, doc, signature)];
    Then(env, start, steps, UpdateStart(0, id, doc, signature));
    Then(env, start, started, GiveUp(0));
    Then(env, start, started + [GiveUp(0)], Tx(0));
    longer := started + [GiveUp(0)] + [Tx(0)];
    assert env.decode(env.encode(doc)) == Some(doc);
  }

  // ---- From nothing ----

  /** A run without updates is in order. */
  lemma NothingToOrder(env: Env, start: int, steps: seq<Step>, id: string)
    requires IsRun(env, start, steps)
    requires forall n :: 0 <= n < |steps| ==> steps[n].RegisterStart? || steps[n].Tx? || steps[n].RegisterCommit?
    ensures Orderly(env, start, steps, id)
  {
  }

  /** Runs that leave a token broken in the three ways, and one with overlapping
      updates that leaves it whole. */
  ghost predicate ThreeBreakOneHolds(env: Env, start: int, id: string, last: Option<string>, overlap: seq<Step>,
                                     outOfOrder: seq<Step>, lost: seq<Step>, inOrder: seq<Step>) {
    && IsRun(env, start, overlap) && !Succession(env, Exec(env, start, overlap).value.history, id)
    && IdleToken(env, start, outOfOrder, id) && !RowOnChain(env, Exec(env, start, outOfOrder).value, id)
    && IdleToken(env, start, lost, id) && !RowOnChain(env, Exec(env, start, lost).value, id)
    && IsRun(env, start, inOrder) && Orderly(env, start, inOrder, id)
    && Custodial(Exec(env, start, inOrder).value, id) && RowOnChain(env, Exec(env, start, inOrder).value, id)
    && KeyOf(Exec(env, start, inOrder).value, id) == last
  }

  /** All of them, starting with the contract just deployed and one registration:
      whatever the service's settings, whenever the new agent's key signs two
      documents that bring other keys. */
  lemma AllHappen(env: Env, start: int, r: Request, doc1: Doc, signature1: string, doc2: Doc, signature2: string)
    returns (overlap: seq<Step>, outOfOrder: seq<Step>, lost: seq<Step>, inOrder: seq<Step>)
    requires ValidEnv(env) && WellFormedRequest(r)
    requires TwoUpdates(env, Some(r.signingKey), FIRST_TOKEN, doc1, signature1, doc2, signature2)
    requires doc1.signingKey != Some(r.signingKey)
    ensures ThreeBreakOneHolds(env, start, FIRST_TOKEN, doc2.signingKey, overlap, outOfOrder, lost, inOrder)
  {
    var registered := RegisterFirst(env, start, r);
    overlap := OverlapBreaksSuccession(env, start, registered, FIRST_TOKEN, doc1, signature1, doc2, signature2);
    outOfOrder := OutOfOrderBreaksAgreement(env, start, registered, FIRST_TOKEN, doc1, signature1, doc2, signature2);
    lost := LostReceiptBreaksAgreement(env, start, registered, FIRST_TOKEN, doc1, signature1);
    NothingToOrder(env, start, registered, FIRST_TOKEN);
    inOrder := InOrderKeepsAgreement(env, start, registered, FIRST_TOKEN, doc1, signature1, doc2, signature2);
  }

  /** A key without the padding at its end. */
  function Unpadded(key: string): (bare: string)
    ensures |bare| <= |key|
  {
    if key != "" && key[|key| - 1] == '=' then Unpadded(key[..|key| - 1]) else key
  }

  /** A signature that is the key itself, in any spelling: the padding does not
      count. */
  function NaiveSigning(): (string, Doc, string) -> Verdict {
    (key: string, doc: Doc, signature: string) => if Unpadded(signature) == Unpadded(key) then Valid else Invalid
  }

  function NaiveEnv(globalPerDay: nat, wallet: string): Env {
    Env(globalPerDay, wallet, DocCodec.Encode, DocCodec.Decode, NaiveSigning(), (key, text, signature) => Invalid)
  }

  function NewKey(r: Request, suffix: char): Doc {
    Doc(Some(FIRST_TOKEN), Some(r.signingKey + [suffix]), None, "")
  }

  /** Signatures that are good under one key only, which may be spelled in
      several ways; */
  lemma NaiveIsOneKeyEach(globalPerDay: nat, wallet: string, key: string)
    ensures OneKeyEach(NaiveEnv(globalPerDay, wallet)) && SameKey(NaiveEnv(globalPerDay, wallet), key, key + ['='])
  {
    assert (key + ['='])[..|key|] == key;
    assert Unpadded(key + ['=']) == Unpadded(key);
  }

  lemma NaiveIsValid(globalPerDay: nat, wallet: string)
    requires globalPerDay >= 1 && wallet != ZERO_ADDRESS
    ensures ValidEnv(NaiveEnv(globalPerDay, wallet))
  {
    forall d: Doc
      ensures DocCodec.Encode(d) != "" && DocCodec.Decode(DocCodec.Encode(d)) == Some(d)
    {
      DocCodec.DocBack(d);
    }
  }

  lemma NaiveUpdates(globalPerDay: nat, wallet: string, r: Request)
    ensures TwoUpdates(NaiveEnv(globalPerDay, wallet), Some(r.signingKey), FIRST_TOKEN,
                       NewKey(r, '1'), r.signingKey, NewKey(r, '2'), r.signingKey)
    ensures NewKey(r, '1').signingKey != Some(r.signingKey)
  {
    var k, k1, k2 := r.signingKey, r.signingKey + ['1'], r.signingKey + ['2'];
    assert |k1| == |k| + 1 && k1[|k|] == '1' && k2[|k|] == '2';
  }

  /** and so, for every cap, wallet and first registration, some service has all
      of these runs. */
  lemma AllCanHappen(start: int, globalPerDay: nat, wallet: string, r: Request)
    returns (env: Env, overlap: seq<Step>, outOfOrder: seq<Step>, lost: seq<Step>, inOrder: seq<Step>)
    requires globalPerDay >= 1 && wallet != ZERO_ADDRESS && WellFormedRequest(r)
    ensures env.globalPerDay == globalPerDay && env.wallet == wallet && ValidEnv(env) && OneKeyEach(env)
    ensures SameKey(env, r.signingKey, r.signingKey + ['='])
    ensures ThreeBreakOneHolds(env, start, FIRST_TOKEN, NewKey(r, '2').signingKey, overlap, outOfOrder, lost, inOrder)
  {
    env := NaiveEnv(globalPerDay, wallet);
    NaiveIsOneKeyEach(globalPerDay, wallet, r.signingKey);
    NaiveIsValid(globalPerDay, wallet);
    NaiveUpdates(globalPerDay, wallet, r);
    overlap, outOfOrder, lost, inOrder :=
      AllHappen(env, start, r, NewKey(r, '1'), r.signingKey, NewKey(r, '2'), r.signingKey);
  }
}
