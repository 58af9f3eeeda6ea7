/** When can a signed pickup or ack header be accepted twice? The exact
    arithmetic between the nonce window, the clock skew and the time a handler
    spends between its freshness check and its nonce claim (section 6.2 of the
    protocol specification). */
module NonceReplay {
  import opened Basics
  import opened RelayRepo
  import opened RelayMachine
  import opened RelayRuns

  function SkewMs(c: Config): int {
    c.clockSkewSeconds * 1000
  }

  function WindowMs(c: Config): int {
    c.nonceWindowSeconds * 1000
  }

  /** The clock never runs backwards and no handler takes more than delayMs
      from its freshness check to its nonce claim. */
  predicate Timely(c: Config, start: int, steps: seq<Step>, delayMs: nat) {
    && IsRun(c, start, steps)
    && forall n :: 0 <= n < |steps| ==> TimelyStep(StateAt(c, start, steps, n), steps[n], delayMs)
  }

  predicate TimelyStep(s: State, step: Step, delayMs: nat) {
    && s.clock <= step.now
    && ((step.PickupCommit? || step.AckCommit?) && step.job in s.jobs && !s.jobs[step.job].PushJob?
        ==> step.now <= s.jobs[step.job].checkedAt + delayMs)
  }

  predicate SameHeader(a: Claim, b: Claim) {
    a.agentId == b.agentId && a.nonce == b.nonce && a.ts == b.ts
  }

  predicate AcceptedOnce(claims: seq<Claim>) {
    forall i, j :: 0 <= i < j < |claims| ==> !SameHeader(claims[i], claims[j])
  }

  // ---- The invariant ----

  predicate FreshAt(c: Config, ts: int, checkedAt: int) {
    -SkewMs(c) <= checkedAt - ts <= SkewMs(c)
  }

  predicate JobOk(c: Config, s: State, job: Job) {
    || job.PushJob?
    || (FreshAt(c, job.ts, job.checkedAt) && job.checkedAt <= s.clock && job.agentId != "" && job.nonce != "")
  }

  predicate ClaimOk(c: Config, s: State, claim: Claim, delayMs: nat) {
    && FreshAt(c, claim.ts, claim.checkedAt) && claim.agentId != "" && claim.nonce != ""
    && claim.checkedAt <= claim.at <= claim.checkedAt + delayMs
    && claim.at <= s.clock
    && (claim.at >= s.clock - WindowMs(c) ==>
          claim.nonce in s.nonces && s.nonces[claim.nonce].seenAt >= claim.at)
  }

  /** A second acceptance of a header comes only after its first claim has left
      the window, and while its timestamp is still fresh enough. */
  predicate ReplaysAreLate(c: Config, claims: seq<Claim>, delayMs: nat) {
    forall i, j :: 0 <= i < j < |claims| && SameHeader(claims[i], claims[j]) ==>
      claims[i].at + WindowMs(c) < claims[j].at <= claims[j].ts + SkewMs(c) + delayMs
  }

  predicate Inv(c: Config, s: State, delayMs: nat) {
    && (forall j :: j in s.jobs ==> JobOk(c, s, s.jobs[j]))
    && (forall i :: 0 <= i < |s.claims| ==> ClaimOk(c, s, s.claims[i], delayMs))
    && (forall n :: n in s.nonces ==> s.nonces[n].seenAt <= s.clock)
    && ReplaysAreLate(c, s.claims, delayMs)
  }

  lemma ClaimStep(c: Config, s: State, job: Job, now: int, delayMs: nat)
    requires Inv(c, s, delayMs) && s.clock <= now && !job.PushJob? && JobOk(c, s, job)
    requires now <= job.checkedAt + delayMs
    ensures Inv(c, WithClaim(c, s, job, now).(clock := now), delayMs)
  {
  }

  lemma StartInv(c: Config, s: State, step: Step, delayMs: nat)
    requires Inv(c, s, delayMs) && Enabled(c, s, step) && s.clock <= step.now
    requires !step.PickupCommit? && !step.AckCommit?
    ensures Inv(c, Apply(c, s, step), delayMs)
  {
    var s' := Apply(c, s, step);
    assert s'.claims == s.claims && s'.nonces == s.nonces && s'.clock == step.now;
    forall i | 0 <= i < |s.claims|
      ensures ClaimOk(c, s', s.claims[i], delayMs)
    {
      assert ClaimOk(c, s, s.claims[i], delayMs);
    }
    forall j | j in s'.jobs
      ensures JobOk(c, s', s'.jobs[j])
    {
      assert j in s.jobs ==> JobOk(c, s, s.jobs[j]);
    }
  }

  lemma CommitInv(c: Config, s: State, step: Step, delayMs: nat)
    requires Inv(c, s, delayMs) && Enabled(c, s, step) && TimelyStep(s, step, delayMs)
    requires step.PickupCommit? || step.AckCommit?
    ensures Inv(c, Apply(c, s, step), delayMs)
  {
    var job := s.jobs[step.job];
    ClaimStep(c, s, job, step.now, delayMs);
    var mid, s' := WithClaim(c, s, job, step.now).(clock := step.now), Apply(c, s, step);
    assert s'.claims == mid.claims && s'.nonces == mid.nonces && s'.clock == mid.clock;
    assert forall i :: 0 <= i < |mid.claims| ==> ClaimOk(c, mid, mid.claims[i], delayMs);
    assert forall j :: j in s'.jobs ==> JobOk(c, mid, mid.jobs[j]);
  }

  lemma StepInv(c: Config, s: State, step: Step, delayMs: nat)
    requires Inv(c, s, delayMs) && Enabled(c, s, step) && TimelyStep(s, step, delayMs)
    ensures Inv(c, Apply(c, s, step), delayMs)
  {
    if step.PickupCommit? || step.AckCommit? {
      CommitInv(c, s, step, delayMs);
    } else {
      StartInv(c, s, step, delayMs);
    }
  }

  lemma {:induction false} RunInv(c: Config, start: int, steps: seq<Step>, delayMs: nat)
    requires Timely(c, start, steps, delayMs)
    ensures Inv(c, Exec(c, start, steps).value, delayMs)
  {
    if |steps| > 0 {
      var front, last := steps[..|steps| - 1], steps[|steps| - 1];
      forall n | 0 <= n < |front|
        ensures TimelyStep(StateAt(c, start, front, n), front[n], delayMs)
      {
        assert front[..n] == steps[..n];
        assert TimelyStep(StateAt(c, start, steps, n), steps[n], delayMs);
      }
      RunInv(c, start, front, delayMs);
      assert TimelyStep(StateAt(c, start, steps, |front|), last, delayMs);
      StepInv(c, Exec(c, start, front).value, last, delayMs);
    }
  }

  // ---- Every run ----

  /** Whatever the configuration, a header is accepted a second time only after
      its first claim has left the window and within ts + skew + delay. */
  lemma ReplayOnlyAfterWindow(c: Config, start: int, steps: seq<Step>, delayMs: nat, i: nat, j: nat)
    requires Timely(c, start, steps, delayMs)
    requires var claims := Exec(c, start, steps).value.claims;
             i < j < |claims| && SameHeader(claims[i], claims[j])
    ensures var claims := Exec(c, start, steps).value.claims;
            claims[i].at + WindowMs(c) < claims[j].at <= claims[j].ts + SkewMs(c) + delayMs
  {
    RunInv(c, start, steps, delayMs);
  }

  function ReplayHeader(c: Config): Header {
    Header("agent", Some(SkewMs(c)), "nonce", "sig")
  }

  /** Checked as early as the skew allows, then again as late as it allows. */
  function ReplayRun(c: Config, delayMs: nat): seq<Step> {
    [ PickupStart(0, "agent", Some(ReplayHeader(c)), NoSince, 0),
      PickupCommit(0, [], 0),
      PickupStart(1, "agent", Some(ReplayHeader(c)), NoSince, 2 * SkewMs(c)),
      PickupCommit(1, [], 2 * SkewMs(c) + delayMs) ]
  }

  lemma ReplayWitness(c: Config, delayMs: nat)
    requires WindowMs(c) < 2 * SkewMs(c) + delayMs
    ensures Timely(c, 0, ReplayRun(c, delayMs), delayMs)
    ensures !AcceptedOnce(Exec(c, 0, ReplayRun(c, delayMs)).value.claims)
  {
    var steps := ReplayRun(c, delayMs);
    var s0 := Init(0);
    assert RowIds([]) == [] && Elems<string>([]) == {};
    var s1 := Apply(c, s0, steps[0]);
    var s2 := Apply(c, s1, steps[1]);
    var s3 := Apply(c, s2, steps[2]);
    var s4 := Apply(c, s3, steps[3]);
    assert steps[..0] == [] && steps[..1][..0] == [] && steps[..2][..1] == steps[..1];
    assert steps[..3][..2] == steps[..2] && steps[..4] == steps && steps[..4][..3] == steps[..3];
    assert Exec(c, 0, steps[..0]) == Some(s0);
    assert Exec(c, 0, steps[..1]) == Some(s1);
    assert Exec(c, 0, steps[..2]) == Some(s2);
    assert Exec(c, 0, steps[..3]) == Some(s3);
    assert Exec(c, 0, steps) == Some(s4);
    assert SameHeader(s4.claims[0], s4.claims[1]);
  }

  /** No interleaving accepts a header twice exactly when the window covers
      twice the skew plus the delay. */
  lemma ReplayFreeIff(c: Config, delayMs: nat)
    ensures WindowMs(c) >= 2 * SkewMs(c) + delayMs
            <==> (forall start, steps | Timely(c, start, steps, delayMs) ::
                    AcceptedOnce(Exec(c, start, steps).value.claims))
  {
    if WindowMs(c) < 2 * SkewMs(c) + delayMs {
      ReplayWitness(c, delayMs);
    } else {
      forall start, steps | Timely(c, start, steps, delayMs)
        ensures AcceptedOnce(Exec(c, start, steps).value.claims)
      {
        RunInv(c, start, steps, delayMs);
        var s := Exec(c, start, steps).value;
        forall i, j | 0 <= i < j < |s.claims|
          ensures !SameHeader(s.claims[i], s.claims[j])
        {
          assert ClaimOk(c, s, s.claims[i], delayMs);
        }
      }
    }
  }

  // ---- One header, with the window as shipped ----

  /** Some answer to a pickup query always exists. */
  lemma {:induction false} ListingExists(t: Table, ids: set<string>)
    requires Keyed(t) && forall id :: id in ids ==> id in t
    ensures exists out :: Listing(t, ids, out)
    decreases ids
  {
    if ids == {} {
      assert Listing(t, ids, []);
    } else {
      var id :| id in ids;
      ListingExists(t, ids - {id});
      var rest :| Listing(t, ids - {id}, rest);
      ListingInsert(t, ids - {id}, rest, id);
      assert ids - {id} + {id} == ids;
    }
  }

  function LastClaim(c: Config, start: int, steps: seq<Step>): Claim
    requires IsRun(c, start, steps) && |Exec(c, start, steps).value.claims| > 0
  {
    var claims := Exec(c, start, steps).value.claims;
    claims[|claims| - 1]
  }

  /** `more` carries the run on and has the last accepted header accepted once
      more. */
  predicate AcceptedAgain(c: Config, start: int, steps: seq<Step>, more: seq<Step>)
    requires IsRun(c, start, steps) && |Exec(c, start, steps).value.claims| > 0
  {
    && Timely(c, start, steps + more, 0)
    && var n := |Exec(c, start, steps).value.claims|;
       var later := Exec(c, start, steps + more).value.claims;
       exists j :: n <= j < |later| && SameHeader(LastClaim(c, start, steps), later[j])
  }

  lemma StepClaims(c: Config, s: State, step: Step)
    requires Enabled(c, s, step)
    ensures s.claims <= Apply(c, s, step).claims
  {
  }

  lemma {:induction false} ClaimsGrow(c: Config, start: int, steps: seq<Step>, more: seq<Step>)
    requires IsRun(c, start, steps + more)
    ensures IsRun(c, start, steps)
    ensures Exec(c, start, steps).value.claims <= Exec(c, start, steps + more).value.claims
  {
    if |more| == 0 {
      assert steps + more == steps;
    } else {
      var all := steps + more;
      var front := steps + more[..|more| - 1];
      assert all[..|all| - 1] == front;
      ClaimsGrow(c, start, steps, more[..|more| - 1]);
      StepClaims(c, Exec(c, start, front).value, all[|all| - 1]);
    }
  }

  lemma TimelyAppend(c: Config, start: int, steps: seq<Step>, step: Step, delayMs: nat)
    requires Timely(c, start, steps, delayMs)
    requires Enabled(c, Exec(c, start, steps).value, step) && TimelyStep(Exec(c, start, steps).value, step, delayMs)
    ensures Timely(c, start, steps + [step], delayMs)
    ensures Exec(c, start, steps + [step]) == Some(Apply(c, Exec(c, start, steps).value, step))
  {
    var all := steps + [step];
    assert all[..|all| - 1] == steps;
    forall n | 0 <= n < |all|
      ensures TimelyStep(StateAt(c, start, all, n), all[n], delayMs)
    {
      assert n < |steps| ==> all[..n] == steps[..n];
      assert n < |steps| ==> TimelyStep(StateAt(c, start, steps, n), steps[n], delayMs);
    }
  }

  lemma FreshKey(jobs: map<nat, Job>) returns (job: nat)
    ensures job !in jobs
  {
    var keys := jobs.Keys;
    job := 0;
    while keys != {}
      invariant keys <= jobs.Keys
      invariant forall k :: k in jobs && k !in keys ==> k < job
      decreases keys
    {
      var k :| k in keys;
      job := if k < job then job else k + 1;
      keys := keys - {k};
    }
  }

  function RetryStart(c: Config, claim: Claim, job: nat): Step {
    PickupStart(job, claim.agentId, Some(Header(claim.agentId, Some(claim.ts), claim.nonce, "sig")), NoSince,
                claim.ts + SkewMs(c))
  }

  lemma RetryStarts(c: Config, s: State, claim: Claim, job: nat)
    requires Inv(c, s, 0) && job !in s.jobs && claim.agentId != "" && claim.nonce != ""
    requires s.clock <= claim.ts + SkewMs(c)
    ensures Enabled(c, s, RetryStart(c, claim, job)) && TimelyStep(s, RetryStart(c, claim, job), 0)
    ensures Apply(c, s, RetryStart(c, claim, job))
            == s.(clock := claim.ts + SkewMs(c),
                  jobs := s.jobs[job := PickupJob(claim.agentId, claim.nonce, claim.ts, NoSince, claim.ts + SkewMs(c))])
  {
  }

  lemma RetryCommits(c: Config, s: State, claim: Claim, job: nat) returns (finish: Step)
    requires job in s.jobs && Keyed(s.table)
    requires s.jobs[job] == PickupJob(claim.agentId, claim.nonce, claim.ts, NoSince, s.clock)
    requires claim.nonce in s.nonces && s.nonces[claim.nonce].seenAt < s.clock - WindowMs(c)
    ensures Enabled(c, s, finish) && TimelyStep(s, finish, 0)
    ensures Apply(c, s, finish).claims
            == s.claims + [Claim(claim.agentId, claim.nonce, claim.ts, s.clock, s.clock)]
  {
    ListingExists(s.table, PickupIds(s.table, claim.agentId, 0));
    var served :| Listing(s.table, PickupIds(s.table, claim.agentId, 0), served);
    finish := PickupCommit(job, served, s.clock);
  }

  lemma TwoMore(c: Config, start: int, steps: seq<Step>, a: Step, b: Step)
    requires Timely(c, start, steps, 0)
    requires var s := Exec(c, start, steps).value; Enabled(c, s, a) && TimelyStep(s, a, 0)
    requires var s := Apply(c, Exec(c, start, steps).value, a); Enabled(c, s, b) && TimelyStep(s, b, 0)
    ensures Timely(c, start, steps + [a, b], 0)
    ensures Exec(c, start, steps + [a, b]) == Some(Apply(c, Apply(c, Exec(c, start, steps).value, a), b))
  {
    TimelyAppend(c, start, steps, a, 0);
    TimelyAppend(c, start, steps + [a], b, 0);
    assert steps + [a] + [b] == steps + [a, b];
  }

  /** The replay itself: the same header, checked and claimed at the last
      moment its timestamp is fresh. */
  lemma ReplayLater(c: Config, start: int, steps: seq<Step>)
    requires Timely(c, start, steps, 0) && |Exec(c, start, steps).value.claims| > 0
    requires Exec(c, start, steps).value.clock == LastClaim(c, start, steps).at
    requires LastClaim(c, start, steps).at + WindowMs(c) < LastClaim(c, start, steps).ts + SkewMs(c)
    ensures exists more :: AcceptedAgain(c, start, steps, more)
  {
    var claim := LastClaim(c, start, steps);
    var s0 := Exec(c, start, steps).value;
    RunInv(c, start, steps, 0);
    assert ClaimOk(c, s0, claim, 0);
    assert Keyed(s0.table) by {
      RunSound(c, start, steps);
    }
    var job := FreshKey(s0.jobs);
    var begin := RetryStart(c, claim, job);
    RetryStarts(c, s0, claim, job);
    var finish := RetryCommits(c, Apply(c, s0, begin), claim, job);
    TwoMore(c, start, steps, begin, finish);
    var later := Exec(c, start, steps + [begin, finish]).value.claims;
    assert later[|s0.claims|] == Claim(claim.agentId, claim.nonce, claim.ts, begin.now, begin.now);
    assert SameHeader(claim, later[|s0.claims|]);
    assert AcceptedAgain(c, start, steps, [begin, finish]);
  }

  /** With handlers that claim at once, a header that has just been accepted can
      be accepted again in some continuation exactly when its timestamp will
      still be fresh after the window has passed. */
  lemma HeaderReplayIff(c: Config, start: int, steps: seq<Step>)
    requires Timely(c, start, steps, 0) && |Exec(c, start, steps).value.claims| > 0
    requires Exec(c, start, steps).value.clock == LastClaim(c, start, steps).at
    ensures (exists more :: AcceptedAgain(c, start, steps, more))
            <==> LastClaim(c, start, steps).at + WindowMs(c) < LastClaim(c, start, steps).ts + SkewMs(c)
  {
    if more :| AcceptedAgain(c, start, steps, more) {
      ClaimsGrow(c, start, steps, more);
      RunInv(c, start, steps + more, 0);
    }
    if LastClaim(c, start, steps).at + WindowMs(c) < LastClaim(c, start, steps).ts + SkewMs(c) {
      ReplayLater(c, start, steps);
    }
  }

  /** As shipped the window equals the skew: then a header is replayable exactly
      when its timestamp was ahead of the relay clock when it was accepted. */
  lemma ShippedWindow(c: Config, start: int, steps: seq<Step>)
    requires c.nonceWindowSeconds == c.clockSkewSeconds
    requires Timely(c, start, steps, 0) && |Exec(c, start, steps).value.claims| > 0
    requires Exec(c, start, steps).value.clock == LastClaim(c, start, steps).at
    ensures (exists more :: AcceptedAgain(c, start, steps, more))
            <==> LastClaim(c, start, steps).ts > LastClaim(c, start, steps).at
  {
    HeaderReplayIff(c, start, steps);
  }
}
