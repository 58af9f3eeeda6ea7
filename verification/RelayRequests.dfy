/** What a handler of the relay was asked, read off the run itself: which requests
    get as far as the key lookup, and that whatever a handler does in the end is
    what its own request asked for. */
module RelayRequests {
  import opened Basics
  import opened RelayRepo
  import opened RelayEvents
  import opened RelayMachine

  predicate Starts(step: Step, job: nat) {
    (step.PushStart? || step.PickupStart? || step.AckStart?) && step.job == job
  }

  predicate Finishes(step: Step) {
    step.AuthFail? || step.PushCommit? || step.PickupCommit? || step.AckCommit?
  }

  predicate Ends(step: Step, job: nat) {
    Finishes(step) && step.job == job
  }

  /** No farther than the skew from the relay's clock, behind it or ahead of it. */
  predicate InSkew(c: Config, ts: int, now: int) {
    now <= ts + c.clockSkewSeconds * 1000 && ts <= now + c.clockSkewSeconds * 1000
  }

  predicate Timestamped(c: Config, h: Option<Header>, now: int) {
    h.Some? && h.value.ts.Some? && InSkew(c, h.value.ts.value, now)
  }

  /** The requests that get as far as the key lookup. */
  predicate Admitted(c: Config, step: Step) {
    match step
    case PushStart(_, _, _) => true
    case PickupStart(_, forAgent, h, _, now) => forAgent != "" && Timestamped(c, h, now) && h.value.agentId == forAgent
    case AckStart(_, h, _, now) => Timestamped(c, h, now)
    case _ => false
  }

  predicate Says(h: Option<Header>, agentId: string, ts: int, nonce: string) {
    h.Some? && h.value.agentId == agentId && h.value.ts == Some(ts) && h.value.nonce == nonce
  }

  /** The handler does what this request asks. */
  predicate AskedBy(step: Step, job: Job) {
    match job
    case PushJob(e) => step.PushStart? && step.envelope == e
    case PickupJob(agentId, nonce, ts, since, checkedAt) =>
      && step.PickupStart? && step.forAgent == agentId && Says(step.header, agentId, ts, nonce)
      && step.since == since && step.now == checkedAt
    case AckJob(agentId, nonce, ts, ids, checkedAt) =>
      && step.AckStart? && Says(step.header, agentId, ts, nonce)
      && step.envelopeIds == ids && step.now == checkedAt
  }

  /** A request waits exactly when it is admitted, and is answered at once
      otherwise. */
  lemma AdmittedIff(c: Config, s: State, step: Step)
    requires Enabled(c, s, step) && (step.PushStart? || step.PickupStart? || step.AckStart?)
    ensures step.job in Apply(c, s, step).jobs <==> Admitted(c, step)
    ensures Admitted(c, step) ==> ReplyTo(c, s, step) == Silent && AskedBy(step, Apply(c, s, step).jobs[step.job])
    ensures !Admitted(c, step) ==>
              ReplyTo(c, s, step)
              == if step.PickupStart? && step.forAgent == "" then BadRequest400 else Unauthorized401
    ensures var s' := Apply(c, s, step); s'.table == s.table && s'.nonces == s.nonces && s'.log == s.log
  {
  }

  /** A handler that is not the step's own stays where it is. */
  lemma OthersWait(c: Config, s: State, step: Step, job: nat)
    requires Enabled(c, s, step) && job in s.jobs
    ensures !Starts(step, job)
    ensures if Ends(step, job) then job !in Apply(c, s, step).jobs
            else job in Apply(c, s, step).jobs && Apply(c, s, step).jobs[job] == s.jobs[job]
  {
  }

  /** The last request before step n that took this job number. */
  function LastStart(steps: seq<Step>, n: nat, job: nat): Option<nat>
    requires n <= |steps|
  {
    if n == 0 then None
    else if Starts(steps[n - 1], job) then Some(n - 1)
    else LastStart(steps, n - 1, job)
  }

  lemma {:induction false} LastStartFront(steps: seq<Step>, n: nat, m: nat, job: nat)
    requires n <= m <= |steps|
    ensures LastStart(steps[..m], n, job) == LastStart(steps, n, job)
  {
    if n > 0 {
      LastStartFront(steps, n - 1, m, job);
    }
  }

  lemma StillLast(front: seq<Step>, step: Step, job: nat)
    requires !Starts(step, job)
    ensures LastStart(front + [step], |front| + 1, job) == LastStart(front, |front|, job)
  {
    assert (front + [step])[..|front|] == front;
    LastStartFront(front + [step], |front|, |front|, job);
  }

  /** Every handler that waits is at what the last request with its number asked,
      which was admitted, and has not ended since. */
  lemma {:induction false} WaitingWasAsked(c: Config, start: int, steps: seq<Step>, job: nat)
    requires IsRun(c, start, steps) && job in Exec(c, start, steps).value.jobs
    ensures var m := LastStart(steps, |steps|, job);
            && m.Some? && m.value < |steps| && Starts(steps[m.value], job)
            && Admitted(c, steps[m.value]) && AskedBy(steps[m.value], Exec(c, start, steps).value.jobs[job])
            && forall k :: m.value < k < |steps| ==> !Ends(steps[k], job)
  {
    var last := |steps| - 1;
    var front, step := steps[..last], steps[last];
    var s := Exec(c, start, front).value;
    if job in s.jobs {
      WaitingWasAsked(c, start, front, job);
      OthersWait(c, s, step, job);
      StillLast(front, step, job);
      assert steps == front + [step];
    } else {
      AdmittedIff(c, s, step);
    }
  }

  /** The request that the handler ending at step n was started by. */
  function StartOf(c: Config, start: int, steps: seq<Step>, n: nat): (m: nat)
    requires IsRun(c, start, steps) && n < |steps| && Finishes(steps[n])
    ensures m < n && Starts(steps[m], steps[n].job) && Admitted(c, steps[m])
    ensures LastStart(steps, n, steps[n].job) == Some(m)
    ensures steps[n].PushCommit? ==> steps[m].PushStart?
    ensures steps[n].PickupCommit? ==> steps[m].PickupStart? && steps[m].header.Some?
    ensures steps[n].AckCommit? ==> steps[m].AckStart? && steps[m].header.Some?
  {
    EndWasAsked(c, start, steps, n);
    LastStart(steps, n, steps[n].job).value
  }

  lemma WaitedBefore(c: Config, start: int, steps: seq<Step>, n: nat, job: nat)
    requires IsRun(c, start, steps) && n < |steps| && job in StateAt(c, start, steps, n).jobs
    ensures var m, s := LastStart(steps, n, job), StateAt(c, start, steps, n);
            && m.Some? && m.value < n && Starts(steps[m.value], job) && Admitted(c, steps[m.value])
            && AskedBy(steps[m.value], s.jobs[job])
            && forall k :: m.value < k < n ==> !Ends(steps[k], job)
  {
    PrefixIsRun(c, start, steps, n);
    WaitingWasAsked(c, start, steps[..n], job);
    LastStartFront(steps, n, n, job);
    assert forall k :: 0 <= k < n ==> steps[..n][k] == steps[k];
  }

  lemma EndedJob(c: Config, s: State, step: Step, asked: Step)
    requires Enabled(c, s, step) && Finishes(step)
    ensures step.job in s.jobs
    ensures AskedBy(asked, s.jobs[step.job]) ==>
              && (step.PushCommit? ==> asked.PushStart?)
              && (step.PickupCommit? ==> asked.PickupStart?)
              && (step.AckCommit? ==> asked.AckStart?)
  {
  }

  /** Whatever a handler ends with, it was asked for by the last request that took
      its number, which was admitted and has not been answered before. */
  lemma EndWasAsked(c: Config, start: int, steps: seq<Step>, n: nat)
    requires IsRun(c, start, steps) && n < |steps| && Finishes(steps[n])
    ensures var m, s := LastStart(steps, n, steps[n].job), StateAt(c, start, steps, n);
            && m.Some? && m.value < n && Starts(steps[m.value], steps[n].job) && Admitted(c, steps[m.value])
            && steps[n].job in s.jobs && AskedBy(steps[m.value], s.jobs[steps[n].job])
            && (steps[n].PushCommit? ==> steps[m.value].PushStart?)
            && (steps[n].PickupCommit? ==> steps[m.value].PickupStart?)
            && (steps[n].AckCommit? ==> steps[m.value].AckStart?)
            && forall k :: m.value < k < n ==> !Ends(steps[k], steps[n].job)
  {
    StepAt(c, start, steps, n);
    EndedJob(c, StateAt(c, start, steps, n), steps[n], steps[n]);
    WaitedBefore(c, start, steps, n, steps[n].job);
    EndedJob(c, StateAt(c, start, steps, n), steps[n], steps[LastStart(steps, n, steps[n].job).value]);
  }

  lemma AskedNext(c: Config, start: int, steps: seq<Step>, m: nat)
    requires IsRun(c, start, steps) && m < |steps| && Admitted(c, steps[m])
    ensures steps[m].job in StateAt(c, start, steps, m + 1).jobs
    ensures AskedBy(steps[m], StateAt(c, start, steps, m + 1).jobs[steps[m].job])
  {
    StepAt(c, start, steps, m);
    AdmittedIff(c, StateAt(c, start, steps, m), steps[m]);
  }

  lemma WaitsOn(c: Config, start: int, steps: seq<Step>, n: nat, job: nat)
    requires IsRun(c, start, steps) && n < |steps| && job in StateAt(c, start, steps, n).jobs && !Ends(steps[n], job)
    ensures job in StateAt(c, start, steps, n + 1).jobs
    ensures StateAt(c, start, steps, n + 1).jobs[job] == StateAt(c, start, steps, n).jobs[job]
  {
    StepAt(c, start, steps, n);
    OthersWait(c, StateAt(c, start, steps, n), steps[n], job);
  }

  /** And an admitted request is waited on until its handler ends. */
  lemma {:induction false} AskedWaits(c: Config, start: int, steps: seq<Step>, m: nat, n: nat)
    requires IsRun(c, start, steps) && m < n <= |steps| && Admitted(c, steps[m])
    requires forall k :: m < k < n ==> !Ends(steps[k], steps[m].job)
    ensures steps[m].job in StateAt(c, start, steps, n).jobs
    ensures AskedBy(steps[m], StateAt(c, start, steps, n).jobs[steps[m].job])
    decreases n
  {
    if n == m + 1 {
      AskedNext(c, start, steps, m);
    } else {
      AskedWaits(c, start, steps, m, n - 1);
      WaitsOn(c, start, steps, n - 1, steps[m].job);
    }
  }

  // ---- What the answers are, request by request ----

  function ReplyAt(c: Config, start: int, steps: seq<Step>, n: nat): Reply
    requires IsRun(c, start, steps) && n < |steps|
  {
    StepAt(c, start, steps, n);
    ReplyTo(c, StateAt(c, start, steps, n), steps[n])
  }

  /** The envelope that was pushed. */
  function PushedEnvelope(c: Config, start: int, steps: seq<Step>, n: nat): Envelope
    requires IsRun(c, start, steps) && n < |steps| && steps[n].PushCommit?
  {
    steps[StartOf(c, start, steps, n)].envelope
  }

  /** The earlier of the two ends that the sender and the relay set. */
  predicate Clamped(c: Config, ttlSeconds: int, receivedAt: int, expiresAt: int) {
    && expiresAt <= receivedAt + ttlSeconds * 1000
    && expiresAt <= receivedAt + c.maxTtlSeconds * 1000
    && (expiresAt == receivedAt + ttlSeconds * 1000 || expiresAt == receivedAt + c.maxTtlSeconds * 1000)
  }

  /** The row that a push of the envelope leaves. */
  predicate RowFor(c: Config, e: Envelope, at: int, row: Row) {
    && row.envelopeId == e.envelopeId && row.recipientId == e.to && row.senderId == e.from
    && row.signature == e.signature && row.receivedAt == at && row.payload == e
    && Clamped(c, e.ttlSeconds, at, row.expiresAt)
  }

  /** What a push that gets past its signature check comes to. */
  lemma PushOutcome(c: Config, start: int, steps: seq<Step>, n: nat)
    requires IsRun(c, start, steps) && n < |steps| && steps[n].PushCommit?
    ensures var e, s, s' := PushedEnvelope(c, start, steps, n), StateAt(c, start, steps, n),
                            StateAt(c, start, steps, n + 1);
            if e.envelopeId !in s.table then
              && ReplyAt(c, start, steps, n) == Accepted202(steps[n].now, e.envelopeId, false)
              && e.envelopeId in s'.table && s'.table - {e.envelopeId} == s.table
              && RowFor(c, e, steps[n].now, s'.table[e.envelopeId])
              && s'.log == s.log + [Received(e, steps[n].now, s'.table[e.envelopeId].expiresAt)]
            else
              && s'.table == s.table && s'.log == s.log
              && ReplyAt(c, start, steps, n)
                 == if s.table[e.envelopeId].signature == e.signature
                    then Accepted202(s.table[e.envelopeId].receivedAt, e.envelopeId, true)
                    else Conflict409(e.envelopeId)
  {
    StepAt(c, start, steps, n);
    EndWasAsked(c, start, steps, n);
    var s, e := StateAt(c, start, steps, n), PushedEnvelope(c, start, steps, n);
    if e.envelopeId !in s.table {
      assert StateAt(c, start, steps, n + 1).table - {e.envelopeId} == s.table;
    }
  }

  // ---- Nonces, request by request ----

  predicate Commits(step: Step) {
    step.PickupCommit? || step.AckCommit?
  }

  function NonceOf(c: Config, start: int, steps: seq<Step>, n: nat): string
    requires IsRun(c, start, steps) && n < |steps| && Commits(steps[n])
  {
    steps[StartOf(c, start, steps, n)].header.value.nonce
  }

  /** The step accepts a header with this nonce. */
  predicate Spends(c: Config, start: int, steps: seq<Step>, n: nat, nonce: string)
    requires IsRun(c, start, steps)
  {
    && n < |steps| && Commits(steps[n])
    && NonceOf(c, start, steps, n) == nonce && ReplyAt(c, start, steps, n) != Unauthorized401
  }

  /** The clock that the steps read never runs backwards. */
  predicate Forward(c: Config, start: int, steps: seq<Step>)
    requires IsRun(c, start, steps)
  {
    forall n :: 0 <= n < |steps| ==> StateAt(c, start, steps, n).clock <= steps[n].now
  }

  predicate Within(c: Config, at: int, now: int) {
    now <= at + c.nonceWindowSeconds * 1000
  }

  /** What a step does to one nonce. */
  lemma StepNonce(c: Config, s: State, step: Step, nonce: string)
    requires Enabled(c, s, step)
    ensures var s' := Apply(c, s, step);
            if Commits(step) && s.jobs[step.job].nonce == nonce && ReplyTo(c, s, step) != Unauthorized401
            then nonce in s'.nonces && s'.nonces[nonce].seenAt == step.now
            else
              && (nonce in s'.nonces ==> nonce in s.nonces && s'.nonces[nonce] == s.nonces[nonce])
              && (nonce in s.nonces && Within(c, s.nonces[nonce].seenAt, step.now) ==> nonce in s'.nonces)
    ensures Apply(c, s, step).clock == step.now
    ensures Commits(step) ==>
              (ReplyTo(c, s, step) == Unauthorized401
               <==> s.jobs[step.job].nonce in s.nonces
                    && Within(c, s.nonces[s.jobs[step.job].nonce].seenAt, step.now))
  {
  }

  lemma SpendsFront(c: Config, start: int, steps: seq<Step>, m: nat, n: nat, nonce: string)
    requires IsRun(c, start, steps) && n < m <= |steps|
    ensures IsRun(c, start, steps[..m])
    ensures Spends(c, start, steps[..m], n, nonce) <==> Spends(c, start, steps, n, nonce)
  {
    PrefixIsRun(c, start, steps, m);
    assert steps[..m][..n] == steps[..n];
    if Commits(steps[n]) {
      LastStartFront(steps, n, m, steps[n].job);
    }
  }

  predicate SpentBy(c: Config, start: int, steps: seq<Step>, n: nat, nonce: string, at: int)
    requires IsRun(c, start, steps)
  {
    Spends(c, start, steps, n, nonce) && steps[n].now == at
  }

  /** A header with this nonce was accepted at this time. */
  predicate SpentAt(c: Config, start: int, steps: seq<Step>, nonce: string, at: int)
    requires IsRun(c, start, steps)
  {
    exists k :: 0 <= k < |steps| && SpentBy(c, start, steps, k, nonce, at)
  }

  /** What the nonce table knows of a nonce. */
  ghost predicate Remembers(c: Config, start: int, steps: seq<Step>, nonce: string)
    requires IsRun(c, start, steps)
  {
    var s := Exec(c, start, steps).value;
    && (nonce in s.nonces ==> SpentAt(c, start, steps, nonce, s.nonces[nonce].seenAt))
    && (forall at :: SpentAt(c, start, steps, nonce, at) && Within(c, at, s.clock) ==>
          nonce in s.nonces && at <= s.nonces[nonce].seenAt)
  }

  lemma SpendsLast(c: Config, start: int, steps: seq<Step>, nonce: string)
    requires IsRun(c, start, steps) && |steps| > 0
    ensures var s, step := Exec(c, start, steps[..|steps| - 1]).value, steps[|steps| - 1];
            Spends(c, start, steps, |steps| - 1, nonce)
            <==> Commits(step) && s.jobs[step.job].nonce == nonce && ReplyTo(c, s, step) != Unauthorized401
  {
    if Commits(steps[|steps| - 1]) {
      EndWasAsked(c, start, steps, |steps| - 1);
    }
  }

  lemma {:induction false} NoncesRemembered(c: Config, start: int, steps: seq<Step>, nonce: string)
    requires IsRun(c, start, steps) && Forward(c, start, steps)
    ensures Remembers(c, start, steps, nonce)
  {
    if |steps| > 0 {
      var last := |steps| - 1;
      var front, s := steps[..last], Exec(c, start, steps[..last]).value;
      ForwardFront(c, start, steps, last);
      NoncesRemembered(c, start, front, nonce);
      StepNonce(c, s, steps[last], nonce);
      SpendsLast(c, start, steps, nonce);
      NextRemembers(c, start, steps, nonce);
    }
  }

  lemma ForwardFront(c: Config, start: int, steps: seq<Step>, m: nat)
    requires IsRun(c, start, steps) && Forward(c, start, steps) && m <= |steps|
    ensures IsRun(c, start, steps[..m]) && Forward(c, start, steps[..m])
    ensures m < |steps| ==> Exec(c, start, steps[..m]).value.clock <= steps[m].now
  {
    PrefixIsRun(c, start, steps, m);
    assert m < |steps| ==> StateAt(c, start, steps, m).clock <= steps[m].now;
    forall n | 0 <= n < m
      ensures StateAt(c, start, steps[..m], n).clock <= steps[..m][n].now
    {
      assert steps[..m][..n] == steps[..n];
      assert StateAt(c, start, steps, n).clock <= steps[n].now;
    }
  }

  lemma SpentByFront(c: Config, start: int, steps: seq<Step>, m: nat, k: nat, nonce: string, at: int)
    requires IsRun(c, start, steps) && k < m <= |steps| && IsRun(c, start, steps[..m])
    ensures SpentBy(c, start, steps[..m], k, nonce, at) <==> SpentBy(c, start, steps, k, nonce, at)
  {
    SpendsFront(c, start, steps, m, k, nonce);
  }

  lemma SpentBefore(c: Config, start: int, steps: seq<Step>, m: nat, nonce: string, at: int)
    requires IsRun(c, start, steps) && m <= |steps| && IsRun(c, start, steps[..m])
    requires SpentAt(c, start, steps[..m], nonce, at)
    ensures SpentAt(c, start, steps, nonce, at)
  {
    var k: nat :| k < m && SpentBy(c, start, steps[..m], k, nonce, at);
    SpentByFront(c, start, steps, m, k, nonce, at);
  }

  lemma SpentNext(c: Config, start: int, steps: seq<Step>, m: nat, nonce: string, at: int)
    requires IsRun(c, start, steps) && m + 1 == |steps| && IsRun(c, start, steps[..m])
    requires SpentAt(c, start, steps, nonce, at)
    ensures SpentAt(c, start, steps[..m], nonce, at) || SpentBy(c, start, steps, m, nonce, at)
  {
    var k: nat :| k <= m && SpentBy(c, start, steps, k, nonce, at);
    if k < m {
      SpentByFront(c, start, steps, m, k, nonce, at);
    }
  }

  lemma NextRemembers(c: Config, start: int, steps: seq<Step>, nonce: string)
    requires IsRun(c, start, steps) && |steps| > 0
    requires IsRun(c, start, steps[..|steps| - 1]) && Remembers(c, start, steps[..|steps| - 1], nonce)
    requires Exec(c, start, steps[..|steps| - 1]).value.clock <= steps[|steps| - 1].now
    ensures Remembers(c, start, steps, nonce)
  {
    var last := |steps| - 1;
    var s, s' := Exec(c, start, steps[..last]).value, Exec(c, start, steps).value;
    StepNonce(c, s, steps[last], nonce);
    SpendsLast(c, start, steps, nonce);
    if nonce in s'.nonces {
      if Spends(c, start, steps, last, nonce) {
        assert SpentBy(c, start, steps, last, nonce, s'.nonces[nonce].seenAt);
      } else {
        SpentBefore(c, start, steps, last, nonce, s'.nonces[nonce].seenAt);
      }
    }
    forall at | SpentAt(c, start, steps, nonce, at) && Within(c, at, s'.clock)
      ensures nonce in s'.nonces && at <= s'.nonces[nonce].seenAt
    {
      SpentNext(c, start, steps, last, nonce, at);
    }
  }

  /** The step is a pickup or an ack whose nonce was accepted within the window. */
  predicate Repeats(c: Config, start: int, steps: seq<Step>, n: nat)
    requires IsRun(c, start, steps) && n < |steps| && Commits(steps[n])
  {
    exists k :: 0 <= k < n && Spends(c, start, steps, k, NonceOf(c, start, steps, n))
                && Within(c, steps[k].now, steps[n].now)
  }

  /** A pickup or an ack that gets past its signature check is refused exactly when
      its nonce was accepted within the window, of whichever agent. */
  lemma RefusedIff(c: Config, start: int, steps: seq<Step>, n: nat)
    requires IsRun(c, start, steps) && Forward(c, start, steps) && n < |steps| && Commits(steps[n])
    ensures ReplyAt(c, start, steps, n) == Unauthorized401 <==> Repeats(c, start, steps, n)
  {
    var front, nonce := steps[..n], NonceOf(c, start, steps, n);
    ForwardFront(c, start, steps, n);
    NoncesRemembered(c, start, front, nonce);
    StepAt(c, start, steps, n);
    EndWasAsked(c, start, steps, n);
    var s := StateAt(c, start, steps, n);
    StepNonce(c, s, steps[n], nonce);
    if ReplyAt(c, start, steps, n) == Unauthorized401 {
      var at := s.nonces[nonce].seenAt;
      assert SpentAt(c, start, front, nonce, at);
      var k: nat :| k < n && SpentBy(c, start, front, k, nonce, at);
      SpentByFront(c, start, steps, n, k, nonce, at);
      assert Spends(c, start, steps, k, nonce) && Within(c, steps[k].now, steps[n].now);
    }
    if Repeats(c, start, steps, n) {
      var k: nat :| k < n && Spends(c, start, steps, k, nonce) && Within(c, steps[k].now, steps[n].now);
      SpentByFront(c, start, steps, n, k, nonce, steps[k].now);
      assert SpentBy(c, start, front, k, nonce, steps[k].now);
      assert SpentAt(c, start, front, nonce, steps[k].now) && Within(c, steps[k].now, s.clock);
    }
  }

  /** A pickup that is not refused is told that its since parameter is bad, or
      gets an answer; it changes nothing but the nonces. */
  lemma PickupOutcome(c: Config, start: int, steps: seq<Step>, n: nat)
    requires IsRun(c, start, steps) && n < |steps| && steps[n].PickupCommit?
    ensures var reply := ReplyAt(c, start, steps, n);
            && (reply == BadRequest400
                <==> reply != Unauthorized401 && steps[StartOf(c, start, steps, n)].since.BadSince?)
            && (reply.Envelopes200?
                <==> reply != Unauthorized401 && !steps[StartOf(c, start, steps, n)].since.BadSince?)
    ensures var s, s' := StateAt(c, start, steps, n), StateAt(c, start, steps, n + 1);
            s'.table == s.table && s'.log == s.log
  {
    StepAt(c, start, steps, n);
    EndWasAsked(c, start, steps, n);
  }

  /** An ack that is not refused is told what was dropped. */
  lemma AckOutcome(c: Config, start: int, steps: seq<Step>, n: nat)
    requires IsRun(c, start, steps) && n < |steps| && steps[n].AckCommit?
    ensures ReplyAt(c, start, steps, n) == Unauthorized401 || ReplyAt(c, start, steps, n).Dropped200?
    ensures ReplyAt(c, start, steps, n) == Unauthorized401 ==>
              StateAt(c, start, steps, n + 1).table == StateAt(c, start, steps, n).table
  {
    StepAt(c, start, steps, n);
  }

  /** A request whose signature does not verify is refused and leaves no trace. */
  lemma RejectOutcome(c: Config, start: int, steps: seq<Step>, n: nat)
    requires IsRun(c, start, steps) && n < |steps| && steps[n].AuthFail?
    ensures ReplyAt(c, start, steps, n) == Unauthorized401
    ensures var s, s' := StateAt(c, start, steps, n), StateAt(c, start, steps, n + 1);
            s'.table == s.table && s'.nonces == s.nonces && s'.log == s.log
  {
    StepAt(c, start, steps, n);
  }

  // ---- No request gets stuck ----

  lemma {:induction false} AnyListing(t: Table, ids: set<string>) returns (out: seq<Row>)
    requires Keyed(t) && forall id :: id in ids ==> id in t
    ensures Listing(t, ids, out)
    decreases ids
  {
    if ids == {} {
      out := [];
    } else {
      var id :| id in ids;
      var rest := AnyListing(t, ids - {id});
      ListingInsert(t, ids - {id}, rest, id);
      assert ids - {id} + {id} == ids;
      out := Insert(rest, t[id]);
    }
  }

  /** Any request with the fields that its schema or its header asks for can be
      made at any time, under a number that is not taken. */
  lemma AnyRequestStarts(c: Config, s: State, job: nat, e: Envelope, forAgent: string, h: Header, since: Since,
                         ids: seq<string>, now: int)
    requires job !in s.jobs
    ensures e.envelopeId != "" && e.from != "" && e.to != "" && e.signature != "" && e.ttlSeconds >= 1 ==>
              Enabled(c, s, PushStart(job, e, now))
    ensures h.agentId != "" && h.nonce != "" && h.signature != "" ==>
              Enabled(c, s, PickupStart(job, forAgent, Some(h), since, now))
    ensures h.agentId != "" && h.nonce != "" && h.signature != "" && ids != [] && "" !in ids ==>
              Enabled(c, s, AckStart(job, Some(h), ids, now))
    ensures Enabled(c, s, PickupStart(job, forAgent, None, since, now))
  {
  }

  /** And whatever waits can be ended at any time, accepted or not. */
  lemma AnythingEnds(c: Config, s: State, job: nat, now: int) returns (step: Step)
    requires Keyed(s.table) && job in s.jobs
    ensures Enabled(c, s, AuthFail(job, now))
    ensures Enabled(c, s, step) && Finishes(step) && !step.AuthFail? && step.job == job && step.now == now
  {
    match s.jobs[job]
    case PushJob(_) => step := PushCommit(job, now);
    case PickupJob(agentId, _, _, since, _) =>
      var served := AnyListing(s.table, PickupIds(s.table, agentId, SinceValue(since)));
      step := PickupCommit(job, if Claims(c, s, s.jobs[job], now) && !since.BadSince? then served else [], now);
    case AckJob(agentId, _, _, ids, _) =>
      var hits := AnyOrder(AckHits(s.table, agentId, ids));
      step := AckCommit(job, if Claims(c, s, s.jobs[job], now) then hits else [], now);
  }

  lemma {:induction false} AnyOrder(ids: set<string>) returns (out: seq<string>)
    ensures Lists(out, ids)
    decreases ids
  {
    if ids == {} {
      out := [];
    } else {
      var id :| id in ids;
      var rest := AnyOrder(ids - {id});
      ListsInsert(rest, ids - {id}, 0, id);
      assert rest[..0] + [id] + rest[0..] == [id] + rest && ids - {id} + {id} == ids;
      out := [id] + rest;
    }
  }
}
