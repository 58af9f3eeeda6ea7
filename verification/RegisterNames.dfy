/** How often one display name can be registered within a day. */
module RegisterNames {
  import opened Basics
  import opened RegisterDb
  import opened RegisterMachine
  import opened RegisterRuns
  import ScutUri

  /** A registration reads the clock for the name before it does for the cap. */
  predicate AsksInOrder(steps: seq<Step>) {
    forall n :: 0 <= n < |steps| && steps[n].RegisterStart? ==> steps[n].asked <= steps[n].now
  }

  /** The registrations under way for a name. */
  function NamedJobs(w: World, name: string): set<nat> {
    set j | j in w.jobs && Registering(w.jobs[j]) && w.jobs[j].request.displayName == Some(name)
  }

  /** The tokens registered under the name in the last 24 hours. */
  function NamedToday(w: World, name: string): set<string> {
    NamedSince(w.rows, name, w.clock - 86_400)
  }

  predicate NamesWithin(w: World, name: string, k: nat) {
    |NamedToday(w, name)| + |NamedJobs(w, name)| <= k
  }

  lemma Smaller<T>(a: set<T>, b: set<T>)
    requires a <= b
    ensures |a| <= |b|
  {
    assert a + (b - a) == b;
  }

  /** Fewer rows of the name, or older ones, and fewer registrations of it. */
  lemma NoMoreNamed(w: World, w': World, name: string, k: nat)
    requires NamesWithin(w, name, k)
    requires NamedToday(w', name) <= NamedToday(w, name) && NamedJobs(w', name) <= NamedJobs(w, name)
    ensures NamesWithin(w', name, k)
  {
    Smaller(NamedToday(w', name), NamedToday(w, name));
    Smaller(NamedJobs(w', name), NamedJobs(w, name));
  }

  lemma StartNames(env: Env, w: World, job: nat, r: Request, asked: int, now: int, name: string, k: nat)
    requires NamesWithin(w, name, k) && w.clock <= now && asked <= now && job !in w.jobs
    requires |RegisterJobs(AfterRegisterStart(env, w, job, r, asked, now))| <= k
    ensures NamesWithin(AfterRegisterStart(env, w, job, r, asked, now), name, k)
  {
    var w' := AfterRegisterStart(env, w, job, r, asked, now);
    if RegisterRefusal(env, w, r, asked, now) == 0 && r.displayName == Some(name) {
      assert NamedSince(w.rows, name, asked - DAY_SECONDS) == {};
      assert NamedToday(w', name) <= NamedSince(w.rows, name, asked - DAY_SECONDS);
      Smaller(NamedJobs(w', name), RegisterJobs(w'));
    } else {
      NoMoreNamed(w, w', name, k);
    }
  }

  lemma CommitNames(w: World, job: nat, made: int, now: int, name: string, k: nat)
    requires NamesWithin(w, name, k) && w.clock <= now && job in w.jobs && w.jobs[job].Rewritten?
    ensures NamesWithin(AfterRegister(w, job, made, now), name, k)
  {
    var w', id := AfterRegister(w, job, made, now), ScutUri.Decimal(w.jobs[job].token);
    if w.jobs[job].request.displayName == Some(name) {
      assert NamedJobs(w', name) == NamedJobs(w, name) - {job} && job in NamedJobs(w, name);
      assert NamedToday(w', name) <= NamedToday(w, name) + {id};
      Smaller(NamedToday(w', name), NamedToday(w, name) + {id});
    } else {
      NoMoreNamed(w, w', name, k);
    }
  }

  /** Names and times of creation never change. */
  lemma MutationNames(rows: Registrations, tokenId: string, m: Mutation, now: int, name: string, since: int)
    ensures NamedSince(AfterMutation(rows, tokenId, m, now), name, since) == NamedSince(rows, name, since)
  {
  }

  lemma UpdateNames(w: World, job: nat, now: int, name: string, k: nat)
    requires NamesWithin(w, name, k) && w.clock <= now && job in w.jobs && w.jobs[job].UpdateWritten?
    ensures NamesWithin(AfterUpdate(w, job, now), name, k)
  {
    var j := w.jobs[job];
    MutationNames(w.rows, j.tokenId, Mutation(j.doc.signingKey, j.doc.encryptionKey, None), now, name, now - 86_400);
    NoMoreNamed(w, AfterUpdate(w, job, now), name, k);
  }

  lemma TransferNames(w: World, job: nat, now: int, name: string, k: nat)
    requires NamesWithin(w, name, k) && w.clock <= now && job in w.jobs && w.jobs[job].Moved?
    ensures NamesWithin(AfterTransfer(w, job, now), name, k)
  {
    MutationNames(w.rows, w.jobs[job].tokenId, Mutation(None, None, Some(false)), now, name, now - 86_400);
    NoMoreNamed(w, AfterTransfer(w, job, now), name, k);
  }

  /** What is left of a step: nothing about rows, and no registration starts. */
  lemma OtherNames(env: Env, w: World, step: Step, name: string)
    requires Enabled(env, w, step) && !Commits(step) && !step.RegisterStart?
    ensures var w' := Apply(env, w, step);
            w'.rows == w.rows && w'.clock == w.clock && NamedJobs(w', name) <= NamedJobs(w, name)
  {
  }

  lemma StepNames(env: Env, w: World, step: Step, name: string, k: nat)
    requires NamesWithin(w, name, k) && Enabled(env, w, step) && w.clock <= NowOf(step, w.clock)
    requires (step.RegisterStart? ==> step.asked <= step.now) && |RegisterJobs(Apply(env, w, step))| <= k
    ensures NamesWithin(Apply(env, w, step), name, k)
  {
    match step
    case RegisterStart(job, r, asked, now) => StartNames(env, w, job, r, asked, now, name, k);
    case RegisterCommit(job, made, now) => CommitNames(w, job, made, now, name, k);
    case UpdateCommit(job, now) => UpdateNames(w, job, now, name, k);
    case TransferCommit(job, now) => TransferNames(w, job, now, name, k);
    case _ =>
      OtherNames(env, w, step, name);
      NoMoreNamed(w, Apply(env, w, step), name, k);
  }

  lemma {:induction false} NamesHold(env: Env, start: int, steps: seq<Step>, name: string, k: nat)
    requires IsRun(env, start, steps) && AtMostInFlight(env, start, steps, k) && AsksInOrder(steps)
    ensures NamesWithin(Exec(env, start, steps).value, name, k)
  {
    if |steps| == 0 {
      assert NamedToday(Init(start), name) == {} && NamedJobs(Init(start), name) == {};
    } else {
      var last := |steps| - 1;
      FrontInFlight(env, start, steps, k);
      NamesHold(env, start, steps[..last], name, k);
      assert steps[..|steps|] == steps;
      assert FineAt(env, start, steps, k, last) && FineAt(env, start, steps, k, |steps|);
      StepNames(env, Exec(env, start, steps[..last]).value, steps[last], name, k);
    }
  }

  /** With at most k registrations in flight, no name is registered more than k
      times within 24 hours. */
  lemma NameLimitHolds(env: Env, start: int, steps: seq<Step>, name: string, k: nat)
    requires IsRun(env, start, steps) && AtMostInFlight(env, start, steps, k) && AsksInOrder(steps)
    ensures |NamedToday(Exec(env, start, steps).value, name)| <= k
  {
    NamesHold(env, start, steps, name, k);
  }

  /** Days as everyone counts them. */
  lemma DayIs(now: int, day: int)
    ensures Day(now) == day <==> day * 86_400 <= now < (day + 1) * 86_400
  {
  }
}
