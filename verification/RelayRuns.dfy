/** Safety of the relay over whole runs: events are conserved, the first writer
    of an id wins, and rows live exactly as long as the clamp and the eviction
    tick allow. */
module RelayRuns {
  import opened Basics
  import opened RelayRepo
  import opened RelayEvents
  import opened RelayMachine
  import opened RelayRequests

  // ---- The history of one id, read off the event log ----

  datatype Mark = Arrival | AckDrop | ExpiryDrop

  function Naming(id: string, mark: Mark): string -> seq<Mark> {
    (x: string) => if x == id then [mark] else []
  }

  /** One mark for every time an event names the id. */
  function EventMarks(event: Event, id: string): seq<Mark> {
    match event
    case Received(e, _, _) => Naming(id, Arrival)(e.envelopeId)
    case Acked(ids, _) => FlatMap(ids, Naming(id, AckDrop))
    case Expired(eid, _) => Naming(id, ExpiryDrop)(eid)
  }

  function Marker(id: string): Event -> seq<Mark> {
    (event: Event) => EventMarks(event, id)
  }

  /** The history of an id: every arrival and removal the log reports. */
  function Marks(log: seq<Event>, id: string): seq<Mark> {
    FlatMap(log, Marker(id))
  }

  /** Arrival, removal, arrival, removal, ... */
  predicate Alternates(marks: seq<Mark>) {
    forall i :: 0 <= i < |marks| ==> (marks[i].Arrival? <==> i % 2 == 0)
  }

  function Arrivals(marks: seq<Mark>): nat {
    if |marks| == 0 then 0
    else Arrivals(marks[..|marks| - 1]) + if marks[|marks| - 1].Arrival? then 1 else 0
  }

  lemma {:induction false} OccursOnce(ids: seq<string>, id: string, mark: Mark)
    requires NoDuplicates(ids)
    ensures FlatMap(ids, Naming(id, mark)) == if id in ids then [mark] else []
  {
    if |ids| > 0 {
      var front, last := ids[..|ids| - 1], ids[|ids| - 1];
      OccursOnce(front, id, mark);
      assert id in ids <==> id in front || id == last;
      forall i | 0 <= i < |front|
        ensures front[i] != last
      {
        assert ids[i] != ids[|front|];
      }
    }
  }

  lemma {:induction false} ExpiredMarks(evicted: seq<EvictedRow>, id: string)
    ensures Marks(ExpiredEvents(evicted), id) == FlatMap(EvictedIds(evicted), Naming(id, ExpiryDrop))
  {
    if |evicted| > 0 {
      var front, last := evicted[..|evicted| - 1], evicted[|evicted| - 1];
      ExpiredMarks(front, id);
      FlatMapAppend(ExpiredEvents(front), Expired(last.envelopeId, last.recipientId), Marker(id));
      assert EvictedIds(evicted)[..|evicted| - 1] == EvictedIds(front);
    }
  }

  lemma {:induction false} AlternatingBalance(marks: seq<Mark>)
    requires Alternates(marks)
    ensures Arrivals(marks) - (|marks| - Arrivals(marks)) == |marks| % 2
  {
    if |marks| > 0 {
      AlternatingBalance(marks[..|marks| - 1]);
    }
  }

  // ---- Event conservation ----

  /** The history of an id fits whether the id is held now. */
  predicate Tracks(marks: seq<Mark>, held: bool) {
    Alternates(marks) && (held <==> |marks| % 2 == 1)
  }

  predicate Conserved(s: State, id: string) {
    Tracks(Marks(s.log, id), id in s.table)
  }

  /** What one step adds to the history of an id. */
  function NewMarks(c: Config, s: State, step: Step, id: string): seq<Mark>
    requires Enabled(c, s, step)
  {
    match step
    case PushCommit(job, now) =>
      if s.jobs[job].envelope.envelopeId == id && id !in s.table then [Arrival] else []
    case AckCommit(_, hits, _) => if id in hits then [AckDrop] else []
    case EvictTick(evicted, _) => if id in EvictedIds(evicted) then [ExpiryDrop] else []
    case _ => []
  }

  lemma ReceivedMarks(log: seq<Event>, e: Envelope, at: int, until: int, id: string)
    ensures Marks(log + [Received(e, at, until)], id) == Marks(log, id) + if e.envelopeId == id then [Arrival] else []
  {
    FlatMapAppend(log, Received(e, at, until), Marker(id));
    assert Marks(log, id) + [] == Marks(log, id);
  }

  lemma PushMarks(c: Config, s: State, step: Step, id: string)
    requires Enabled(c, s, step) && step.PushCommit?
    ensures Marks(Apply(c, s, step).log, id) == Marks(s.log, id) + NewMarks(c, s, step, id)
  {
    var sub := SubmissionOf(c, s.jobs[step.job].envelope, step.now);
    if StoreOutcome(s.table, sub, step.now).Stored? {
      ReceivedMarks(s.log, sub.payload, step.now, sub.expiresAt, id);
    } else {
      assert Marks(s.log, id) + [] == Marks(s.log, id);
    }
  }

  lemma AckMarks(c: Config, s: State, step: Step, id: string)
    requires Enabled(c, s, step) && step.AckCommit?
    ensures Marks(Apply(c, s, step).log, id) == Marks(s.log, id) + NewMarks(c, s, step, id)
  {
    if |step.hits| > 0 {
      var event := Acked(step.hits, s.jobs[step.job].agentId);
      FlatMapAppend(s.log, event, Marker(id));
      assert Marker(id)(event) == FlatMap(step.hits, Naming(id, AckDrop));
      OccursOnce(step.hits, id, AckDrop);
    }
  }

  lemma TickMarks(c: Config, s: State, step: Step, id: string)
    requires Enabled(c, s, step) && step.EvictTick?
    ensures Marks(Apply(c, s, step).log, id) == Marks(s.log, id) + NewMarks(c, s, step, id)
  {
    FlatMapConcat(s.log, ExpiredEvents(step.evicted), Marker(id));
    ExpiredMarks(step.evicted, id);
    OccursOnce(EvictedIds(step.evicted), id, ExpiryDrop);
  }

  lemma StepMarks(c: Config, s: State, step: Step, id: string)
    requires Enabled(c, s, step)
    ensures Marks(Apply(c, s, step).log, id) == Marks(s.log, id) + NewMarks(c, s, step, id)
  {
    match step
    case PushCommit(_, _) => PushMarks(c, s, step, id);
    case AckCommit(_, _, _) => AckMarks(c, s, step, id);
    case EvictTick(_, _) => TickMarks(c, s, step, id);
    case _ => assert Apply(c, s, step).log == s.log;
  }

  /** A step adds nothing to the history of an id, or flips it once. */
  lemma Extend(marks: seq<Mark>, extra: seq<Mark>, held: bool, heldAfter: bool)
    requires Tracks(marks, held)
    requires if extra == [] then held <==> heldAfter
             else |extra| == 1 && (extra[0].Arrival? <==> !held) && (heldAfter <==> !held)
    ensures Tracks(marks + extra, heldAfter)
  {
  }

  /** The one mark a step adds is the flip its change of the table calls for. */
  lemma MarksFlip(c: Config, s: State, step: Step, id: string)
    requires Enabled(c, s, step)
    ensures var extra, held, heldAfter := NewMarks(c, s, step, id), id in s.table, id in Apply(c, s, step).table;
            if extra == [] then held <==> heldAfter
            else |extra| == 1 && (extra[0].Arrival? <==> !held) && (heldAfter <==> !held)
  {
    match step
    case AckCommit(_, hits, _) => assert id in Elems(hits) <==> id in hits;
    case EvictTick(evicted, now) => assert id in Elems(EvictedIds(evicted)) <==> id in EvictedIds(evicted);
    case _ =>
  }

  lemma StepConserves(c: Config, s: State, step: Step, id: string)
    requires Conserved(s, id) && Enabled(c, s, step)
    ensures Conserved(Apply(c, s, step), id)
  {
    StepMarks(c, s, step, id);
    MarksFlip(c, s, step, id);
    Extend(Marks(s.log, id), NewMarks(c, s, step, id), id in s.table, id in Apply(c, s, step).table);
  }

  /** Along every run the events of an id alternate arrival, removal, and the
      relay holds the id exactly when the last event was an arrival. */
  lemma {:induction false} EventConservation(c: Config, start: int, steps: seq<Step>, id: string)
    requires IsRun(c, start, steps)
    ensures Conserved(Exec(c, start, steps).value, id)
    ensures var s := Exec(c, start, steps).value;
            var m := Marks(s.log, id);
            Arrivals(m) - (|m| - Arrivals(m)) == if id in s.table then 1 else 0
  {
    if |steps| > 0 {
      var front := steps[..|steps| - 1];
      EventConservation(c, start, front, id);
      StepConserves(c, Exec(c, start, front).value, steps[|steps| - 1], id);
    }
    AlternatingBalance(Marks(Exec(c, start, steps).value.log, id));
  }

  // ---- Rows ----

  /** The columns of a row are those of the envelope in its payload. */
  predicate RowConsistent(c: Config, id: string, row: Row) {
    && row.envelopeId == id == row.payload.envelopeId
    && row.recipientId == row.payload.to
    && row.senderId == row.payload.from
    && row.signature == row.payload.signature
    && Clamped(c, row.payload.ttlSeconds, row.receivedAt, row.expiresAt)
    && WellFormedEnvelope(row.payload)
  }

  predicate Sound(c: Config, s: State) {
    && (forall id :: id in s.table ==> RowConsistent(c, id, s.table[id]))
    && (forall j :: j in s.jobs && s.jobs[j].PushJob? ==> WellFormedEnvelope(s.jobs[j].envelope))
  }

  /** Rows only go, and pushes only end. */
  lemma FewerSound(c: Config, s: State, s': State)
    requires Sound(c, s)
    requires forall id :: id in s'.table ==> id in s.table && s'.table[id] == s.table[id]
    requires forall j :: j in s'.jobs && s'.jobs[j].PushJob? ==> j in s.jobs && s'.jobs[j] == s.jobs[j]
    ensures Sound(c, s')
  {
  }

  lemma PushSound(c: Config, s: State, job: nat, now: int)
    requires Sound(c, s) && job in s.jobs && s.jobs[job].PushJob?
    ensures Sound(c, AfterPush(c, s, job, now))
  {
    var s' := AfterPush(c, s, job, now);
    var sub := SubmissionOf(c, s.jobs[job].envelope, now);
    forall id | id in s'.table
      ensures RowConsistent(c, id, s'.table[id])
    {
      assert id in s.table ==> s'.table[id] == s.table[id];
      assert id !in s.table ==> id == sub.envelopeId && s'.table[id] == RowOf(sub, now);
    }
  }

  lemma StepSound(c: Config, s: State, step: Step)
    requires Sound(c, s) && Enabled(c, s, step)
    ensures Sound(c, Apply(c, s, step))
  {
    match step
    case PushStart(job, e, now) =>
    case PushCommit(job, now) => PushSound(c, s, job, now);
    case AckCommit(job, hits, now) => FewerSound(c, s, AfterAck(c, s, job, hits, now));
    case EvictTick(evicted, now) => FewerSound(c, s, AfterTick(s, evicted, now));
    case _ => FewerSound(c, s, Apply(c, s, step));
  }

  lemma {:induction false} RunSound(c: Config, start: int, steps: seq<Step>)
    requires IsRun(c, start, steps)
    ensures Sound(c, Exec(c, start, steps).value)
  {
    if |steps| > 0 {
      var front := steps[..|steps| - 1];
      RunSound(c, start, front);
      StepSound(c, Exec(c, start, front).value, steps[|steps| - 1]);
    }
  }

  /** Everything that can happen to the row of an id in one step: it stays as
      it is, its own recipient acks it, a tick finds it expired, or, where
      there was none, a push creates it. */
  lemma RowStep(c: Config, s: State, step: Step, id: string)
    requires Sound(c, s) && Enabled(c, s, step)
    ensures var s' := Apply(c, s, step);
            if id in s.table && id in s'.table then s'.table[id] == s.table[id]
            else if id in s.table then
              || (step.EvictTick? && s.table[id].expiresAt <= step.now)
              || (step.AckCommit? && s.jobs[step.job].agentId == s.table[id].recipientId
                  && id in s.jobs[step.job].envelopeIds
                  && Claims(c, s, s.jobs[step.job], step.now))
            else if id in s'.table then
              step.PushCommit? && s.jobs[step.job].envelope == s'.table[id].payload
              && s'.table[id].receivedAt == step.now
            else true
    ensures step.AckCommit? && Claims(c, s, s.jobs[step.job], step.now) && id in s.table
            && s.jobs[step.job].agentId == s.table[id].recipientId && id in s.jobs[step.job].envelopeIds
            ==> id !in Apply(c, s, step).table
    ensures step.EvictTick? && id in s.table && s.table[id].expiresAt <= step.now ==> id !in Apply(c, s, step).table
  {
  }

  // ---- What the events say ----

  /** The event speaks of what has just happened to the table. */
  predicate EventFits(c: Config, s: State, s': State, now: int, event: Event) {
    match event
    case Received(e, at, until) =>
      && at == now && e.envelopeId !in s.table && e.envelopeId in s'.table
      && RowFor(c, e, at, s'.table[e.envelopeId]) && until == s'.table[e.envelopeId].expiresAt
    case Acked(ids, agentId) =>
      ids != [] && forall id :: id in ids ==>
        id in s.table && s.table[id].recipientId == agentId && id !in s'.table
    case Expired(id, recipientId) =>
      && id in s.table && s.table[id].recipientId == recipientId && s.table[id].expiresAt <= now
      && id !in s'.table
  }

  predicate EventsFit(c: Config, s: State, s': State, now: int) {
    && |s.log| <= |s'.log| && s'.log[..|s.log|] == s.log
    && forall i :: |s.log| <= i < |s'.log| ==> EventFits(c, s, s', now, s'.log[i])
  }

  lemma {:induction false} ExpiredEventAt(evicted: seq<EvictedRow>, i: nat)
    requires i < |ExpiredEvents(evicted)|
    ensures |ExpiredEvents(evicted)| == |evicted|
    ensures ExpiredEvents(evicted)[i] == Expired(evicted[i].envelopeId, evicted[i].recipientId)
  {
    var front := evicted[..|evicted| - 1];
    if |front| == 0 {
      assert ExpiredEvents(front) == [];
    } else {
      ExpiredEventAt(front, if i < |ExpiredEvents(front)| then i else 0);
    }
  }

  lemma TickEventsFit(c: Config, s: State, step: Step)
    requires Enabled(c, s, step) && step.EvictTick?
    ensures EventsFit(c, s, Apply(c, s, step), step.now)
  {
    var s', events := Apply(c, s, step), ExpiredEvents(step.evicted);
    forall i | |s.log| <= i < |s'.log|
      ensures EventFits(c, s, s', step.now, s'.log[i])
    {
      var k := i - |s.log|;
      ExpiredEventAt(step.evicted, k);
      assert EvictedIds(step.evicted)[k] in Elems(EvictedIds(step.evicted));
    }
  }

  lemma AckEventsFit(c: Config, s: State, step: Step)
    requires Enabled(c, s, step) && step.AckCommit?
    ensures EventsFit(c, s, Apply(c, s, step), step.now)
  {
    assert forall id :: id in step.hits <==> id in Elems(step.hits);
  }

  lemma PushEventsFit(c: Config, s: State, step: Step)
    requires Enabled(c, s, step) && step.PushCommit?
    ensures EventsFit(c, s, Apply(c, s, step), step.now)
  {
  }

  /** Every event that a run publishes tells what has just happened: what was
      stored and until when, whose envelopes were dropped, what has expired. */
  lemma EventsTellTheTruth(c: Config, start: int, steps: seq<Step>, n: nat)
    requires IsRun(c, start, steps) && n < |steps|
    ensures EventsFit(c, StateAt(c, start, steps, n), StateAt(c, start, steps, n + 1), steps[n].now)
  {
    StepAt(c, start, steps, n);
    var s := StateAt(c, start, steps, n);
    match steps[n]
    case PushCommit(_, _) => PushEventsFit(c, s, steps[n]);
    case AckCommit(_, _, _) => AckEventsFit(c, s, steps[n]);
    case EvictTick(_, _) => TickEventsFit(c, s, steps[n]);
    case _ => assert Apply(c, s, steps[n]).log == s.log;
  }

  // ---- First writer wins ----

  predicate HeldThroughout(c: Config, start: int, steps: seq<Step>, id: string, lo: nat, hi: nat)
    requires IsRun(c, start, steps) && lo <= hi <= |steps|
  {
    forall n :: lo <= n <= hi ==> id in StateAt(c, start, steps, n).table
  }

  /** While an id is held its row never changes. */
  lemma {:induction false} RowIsFixed(c: Config, start: int, steps: seq<Step>, id: string, lo: nat, hi: nat)
    requires IsRun(c, start, steps) && lo <= hi <= |steps|
    requires HeldThroughout(c, start, steps, id, lo, hi)
    ensures StateAt(c, start, steps, hi).table[id] == StateAt(c, start, steps, lo).table[id]
    decreases hi
  {
    if lo < hi {
      RowIsFixed(c, start, steps, id, lo, hi - 1);
      StepAt(c, start, steps, hi - 1);
      PrefixIsRun(c, start, steps, hi - 1);
      RunSound(c, start, steps[..hi - 1]);
      RowStep(c, StateAt(c, start, steps, hi - 1), steps[hi - 1], id);
    }
  }

  /** The push that stores an id fixes what every later push of that id is told
      until the id is removed: the original received time for the same
      signature, a conflict for any other, and no event and no change of the
      table either way. */
  lemma FirstWriterWins(c: Config, start: int, steps: seq<Step>, id: string, first: nat, later: nat)
    requires IsRun(c, start, steps) && first < later < |steps|
    requires steps[first].PushCommit? && steps[later].PushCommit?
    requires PushedEnvelope(c, start, steps, first).envelopeId == id
    requires PushedEnvelope(c, start, steps, later).envelopeId == id
    requires id !in StateAt(c, start, steps, first).table
    requires HeldThroughout(c, start, steps, id, first + 1, later)
    ensures var winner := PushedEnvelope(c, start, steps, first);
            var loser := PushedEnvelope(c, start, steps, later);
            && ReplyAt(c, start, steps, first) == Accepted202(steps[first].now, id, false)
            && ReplyAt(c, start, steps, later)
               == (if loser.signature == winner.signature then Accepted202(steps[first].now, id, true)
                   else Conflict409(id))
            && StateAt(c, start, steps, later + 1).table == StateAt(c, start, steps, later).table
            && StateAt(c, start, steps, later + 1).log == StateAt(c, start, steps, later).log
            && StateAt(c, start, steps, later + 1).table[id].payload == winner
            && Clamped(c, winner.ttlSeconds, steps[first].now, StateAt(c, start, steps, later + 1).table[id].expiresAt)
  {
    EndWasAsked(c, start, steps, first);
    EndWasAsked(c, start, steps, later);
    StepAt(c, start, steps, first);
    StepAt(c, start, steps, later);
    RowIsFixed(c, start, steps, id, first + 1, later);
  }

  function Wins(reply: Reply, id: string): nat {
    if reply.Accepted202? && reply.envelopeId == id && !reply.idempotent then 1 else 0
  }

  lemma ArrivalsAppend(marks: seq<Mark>, extra: seq<Mark>)
    requires |extra| <= 1
    ensures Arrivals(marks + extra) == Arrivals(marks) + Arrivals(extra)
  {
    if extra == [] {
      assert marks + extra == marks;
    } else {
      assert (marks + extra)[..|marks|] == marks;
    }
  }

  lemma WinIsArrival(c: Config, s: State, step: Step, id: string)
    requires Enabled(c, s, step)
    ensures Wins(ReplyTo(c, s, step), id) == Arrivals(NewMarks(c, s, step, id))
  {
  }

  lemma StepWins(c: Config, s: State, step: Step, id: string)
    requires Enabled(c, s, step)
    ensures Arrivals(Marks(Apply(c, s, step).log, id)) == Arrivals(Marks(s.log, id)) + Wins(ReplyTo(c, s, step), id)
  {
    StepMarks(c, s, step, id);
    WinIsArrival(c, s, step, id);
    ArrivalsAppend(Marks(s.log, id), NewMarks(c, s, step, id));
  }

  /** How many pushes were told that their envelope of this id is new. */
  function StoredReplies(c: Config, start: int, steps: seq<Step>, id: string): nat
    requires IsRun(c, start, steps)
    decreases |steps|
  {
    if |steps| == 0 then 0
    else
      PrefixIsRun(c, start, steps, |steps| - 1);
      var last := ReplyAt(c, start, steps, |steps| - 1);
      StoredReplies(c, start, steps[..|steps| - 1], id)
      + Wins(last, id)
  }

  /** One "stored" answer per arrival event: with EventConservation, exactly one
      push wins between two removals of an id. */
  lemma {:induction false} OneWinnerPerStay(c: Config, start: int, steps: seq<Step>, id: string)
    requires IsRun(c, start, steps)
    ensures StoredReplies(c, start, steps, id) == Arrivals(Marks(Exec(c, start, steps).value.log, id))
  {
    if |steps| > 0 {
      var front := steps[..|steps| - 1];
      OneWinnerPerStay(c, start, front, id);
      StepWins(c, Exec(c, start, front).value, steps[|steps| - 1], id);
    }
  }

  // ---- Retention ----

  /** The clock read at each step never runs backwards, and a step is never
      later than intervalMs after the last eviction tick (or the start). */
  predicate TicksEvery(c: Config, start: int, steps: seq<Step>, intervalMs: nat)
    requires IsRun(c, start, steps)
  {
    forall n :: 0 <= n < |steps| ==>
      && StateAt(c, start, steps, n).clock <= steps[n].now
      && steps[n].now <= StateAt(c, start, steps, n).lastTick + intervalMs
  }

  predicate RetentionInv(c: Config, s: State) {
    && s.lastTick <= s.clock
    && forall id :: id in s.table ==>
         && s.table[id].receivedAt < s.table[id].expiresAt <= s.table[id].receivedAt + c.maxTtlSeconds * 1000
         && s.lastTick < s.table[id].expiresAt
  }

  lemma {:induction false} RetentionHolds(c: Config, start: int, steps: seq<Step>)
    requires ValidConfig(c) && IsRun(c, start, steps)
    requires forall n :: 0 <= n < |steps| ==> StateAt(c, start, steps, n).clock <= steps[n].now
    ensures RetentionInv(c, Exec(c, start, steps).value)
  {
    if |steps| > 0 {
      var last := |steps| - 1;
      var front := steps[..last];
      PrefixIsRun(c, start, steps, last);
      forall n | 0 <= n < last
        ensures StateAt(c, start, front, n).clock <= front[n].now
      {
        assert front[..n] == steps[..n];
      }
      RetentionHolds(c, start, front);
      RunSound(c, start, front);
      StepAt(c, start, steps, last);
      assert steps[..|steps|] == steps;
      var s, s' := StateAt(c, start, steps, last), StateAt(c, start, steps, last + 1);
      forall id | id in s'.table
        ensures s'.lastTick < s'.table[id].expiresAt
        ensures s'.table[id].receivedAt < s'.table[id].expiresAt <= s'.table[id].receivedAt + c.maxTtlSeconds * 1000
      {
        RowStep(c, s, steps[last], id);
      }
    }
  }

  /** Retention: a row expires after it arrives and within maxTtl; pickup never
      serves a row that is a whole tick interval past its expiry; and a tick
      never evicts a row early. */
  lemma RetentionBound(c: Config, start: int, steps: seq<Step>, intervalMs: nat, n: nat)
    requires ValidConfig(c) && IsRun(c, start, steps) && TicksEvery(c, start, steps, intervalMs)
    requires n < |steps|
    ensures var s := StateAt(c, start, steps, n);
            && Enabled(c, s, steps[n])
            && (forall id :: id in s.table ==>
                  s.table[id].receivedAt < s.table[id].expiresAt <= s.table[id].receivedAt + c.maxTtlSeconds * 1000)
            && (steps[n].PickupCommit? ==>
                  forall i :: 0 <= i < |steps[n].served| ==> steps[n].now < steps[n].served[i].expiresAt + intervalMs)
            && (steps[n].EvictTick? ==>
                  forall id :: id in s.table ==>
                    (id !in Apply(c, s, steps[n]).table <==> s.table[id].expiresAt <= steps[n].now))
  {
    var front := steps[..n];
    PrefixIsRun(c, start, steps, n);
    forall k | 0 <= k < n
      ensures StateAt(c, start, front, k).clock <= front[k].now
    {
      assert front[..k] == steps[..k];
    }
    RetentionHolds(c, start, front);
    StepAt(c, start, steps, n);
  }
}
