/** One client over several relays: what a 202 from send promises to a later
    receive, and what ack leaves behind. Each relay is its own run of the relay
    machine; the client's requests are steps of those runs. */
module Delivery {
  import opened Basics
  import opened RelayRepo
  import opened RelayMachine
  import opened RelayRequests
  import opened RelayRuns
  import opened Client

  datatype Host = Host(c: Config, start: int, steps: seq<Step>)

  predicate Runs(h: Host) {
    IsRun(h.c, h.start, h.steps)
  }

  function At(h: Host, n: nat): State
    requires Runs(h) && n <= |h.steps|
  {
    StateAt(h.c, h.start, h.steps, n)
  }

  function Pushed(h: Host, n: nat): Envelope
    requires Runs(h) && n < |h.steps| && h.steps[n].PushCommit?
  {
    PushedEnvelope(h.c, h.start, h.steps, n)
  }

  function Answer(h: Host, n: nat): Reply
    requires Runs(h) && n < |h.steps|
  {
    ReplyAt(h.c, h.start, h.steps, n)
  }

  /** The request whose handler ends at step n. */
  function Request(h: Host, n: nat): (step: Step)
    requires Runs(h) && n < |h.steps| && Finishes(h.steps[n])
    ensures h.steps[n].PushCommit? ==> step.PushStart?
    ensures h.steps[n].PickupCommit? ==> step.PickupStart? && step.header.Some?
    ensures h.steps[n].AckCommit? ==> step.AckStart? && step.header.Some?
  {
    h.steps[StartOf(h.c, h.start, h.steps, n)]
  }

  /** A step seen from outside: everything RelayRuns says about one step. */
  lemma Stepped(h: Host, n: nat, id: string)
    requires Runs(h) && n < |h.steps|
    ensures Sound(h.c, At(h, n)) && Sound(h.c, At(h, n + 1))
    ensures Enabled(h.c, At(h, n), h.steps[n])
    ensures At(h, n + 1) == Apply(h.c, At(h, n), h.steps[n])
    ensures Finishes(h.steps[n]) ==> AskedBy(Request(h, n), At(h, n).jobs[h.steps[n].job])
  {
    StepAt(h.c, h.start, h.steps, n);
    if Finishes(h.steps[n]) {
      EndWasAsked(h.c, h.start, h.steps, n);
    }
    PrefixIsRun(h.c, h.start, h.steps, n);
    PrefixIsRun(h.c, h.start, h.steps, n + 1);
    RunSound(h.c, h.start, h.steps[..n]);
    RunSound(h.c, h.start, h.steps[..n + 1]);
  }

  // ---- send ----

  /** The step is an accepted push of e. */
  predicate Accepts(h: Host, n: nat, e: Envelope) {
    && Runs(h) && n < |h.steps| && h.steps[n].PushCommit?
    && Pushed(h, n) == e && Answer(h, n).Accepted202?
  }

  lemma NewRow(h: Host, n: nat, id: string)
    requires Runs(h) && n < |h.steps| && id in At(h, n + 1).table
    ensures if id in At(h, n).table then At(h, n + 1).table[id] == At(h, n).table[id]
            else h.steps[n].PushCommit? && Pushed(h, n) == At(h, n + 1).table[id].payload
  {
    Stepped(h, n, id);
    RowStep(h.c, At(h, n), h.steps[n], id);
  }

  /** A row holds some envelope that was pushed earlier. */
  lemma {:induction false} RowOrigin(h: Host, n: nat, id: string) returns (k: nat)
    requires Runs(h) && n <= |h.steps| && id in At(h, n).table
    ensures k < n && h.steps[k].PushCommit? && Pushed(h, k) == At(h, n).table[id].payload
  {
    NewRow(h, n - 1, id);
    if id in At(h, n - 1).table {
      k := RowOrigin(h, n - 1, id);
    } else {
      k := n - 1;
    }
  }

  /** A relay's answer to a push as the client sees it. */
  function PushAnswerOf(r: Reply): PushAnswer {
    match r
    case Accepted202(storedAt, id, idempotent) => HttpAnswer(202, storedAt, id, idempotent)
    case Conflict409(_) => HttpAnswer(409, 0, "", false)
    case Unauthorized401 => HttpAnswer(401, 0, "", false)
    case _ => HttpAnswer(400, 0, "", false)
  }

  /** The step ends the handler of a request that pushed e. */
  predicate EndsPush(h: Host, n: nat, e: Envelope) {
    && Runs(h) && n < |h.steps| && (h.steps[n].PushCommit? || h.steps[n].AuthFail?)
    && Request(h, n).PushStart? && Request(h, n).envelope == e
  }

  /** The answer is what the relay says at the end of its push of e. */
  predicate Tells(h: Host, n: nat, e: Envelope, a: PushAnswer) {
    EndsPush(h, n, e) && a == PushAnswerOf(Answer(h, n))
  }

  /** A 202 that the client hears comes from the relay it asked. Whatever else it
      hears, or does not, may come from anywhere: a relay's schema, its size or
      rate limit, a proxy, a broken connection. */
  predicate AcceptingRelaysTell(hosts: seq<Host>, pushes: seq<nat>, e: Envelope, answers: nat -> PushAnswer)
    requires |pushes| == |hosts|
  {
    forall i :: 0 <= i < |hosts| && Reached(answers, i) && Accepting(answers(i)) ==>
      Tells(hosts[i], pushes[i], e, answers(i))
  }

  lemma AcceptingIsAccepts(h: Host, n: nat, e: Envelope, a: PushAnswer)
    requires Tells(h, n, e, a)
    ensures Accepting(a) <==> Accepts(h, n, e)
    ensures a.HttpAnswer? && (a.status == 409 <==> Answer(h, n).Conflict409?)
    ensures a.status == 401 <==> Answer(h, n) == Unauthorized401
    ensures Accepting(a) ==> a == HttpAnswer(202, Answer(h, n).storedAt, e.envelopeId, Answer(h, n).idempotent)
  {
    EndWasAsked(h.c, h.start, h.steps, n);
    StepAt(h.c, h.start, h.steps, n);
  }

  /** send over the relays of its routes. It returns what a relay told it whose
      run accepts the envelope at that step; and of the relays it asked before,
      or of all it asked when it fails, none that answered for itself accepted
      the envelope. */
  method SendOver(ghost hosts: seq<Host>, ghost pushes: seq<nat>, ghost e: Envelope, relays: seq<RelayEntry>,
                  outbound: Option<seq<string>>, answers: nat -> PushAnswer)
    returns (outcome: SendOutcome, ghost j: nat)
    requires |pushes| == |hosts| == |Routes(relays, outbound)|
    requires AcceptingRelaysTell(hosts, pushes, e, answers)
    ensures outcome.Sent? <==> relays != [] && Succeeds(answers, |hosts|)
    ensures outcome.Sent? ==>
              && j < |hosts| && Accepts(hosts[j], pushes[j], e)
              && outcome == Sent(Routes(relays, outbound)[j], Answer(hosts[j], pushes[j]).storedAt,
                                 e.envelopeId, Answer(hosts[j], pushes[j]).idempotent)
              && forall i :: 0 <= i < j ==> FallsThrough(answers(i))
    ensures !outcome.Sent? && !outcome.NoRelays? ==>
              forall i :: 0 <= i < |hosts| && Reached(answers, i) ==> !Accepting(answers(i))
    ensures forall i :: 0 <= i < |hosts| && !Accepting(answers(i)) && Tells(hosts[i], pushes[i], e, answers(i)) ==>
              !Accepts(hosts[i], pushes[i], e)
  {
    ghost var asked;
    outcome, asked := Send(relays, outbound, answers);
    j := if asked > 0 then asked - 1 else 0;
    forall i | 0 <= i < |hosts| && Tells(hosts[i], pushes[i], e, answers(i))
      ensures Accepting(answers(i)) <==> Accepts(hosts[i], pushes[i], e)
      ensures Accepting(answers(i)) ==>
                answers(i) == HttpAnswer(202, Answer(hosts[i], pushes[i]).storedAt, e.envelopeId,
                                         Answer(hosts[i], pushes[i]).idempotent)
    {
      AcceptingIsAccepts(hosts[i], pushes[i], e, answers(i));
    }
  }

  /** What signing is for: of the envelopes that passed the relay's signature
      check, no two share an id and a signature. */
  predicate SignaturesBind(h: Host)
    requires Runs(h)
  {
    forall i, j :: 0 <= i < |h.steps| && 0 <= j < |h.steps| && h.steps[i].PushCommit? && h.steps[j].PushCommit?
      && Pushed(h, i).envelopeId == Pushed(h, j).envelopeId && Pushed(h, i).signature == Pushed(h, j).signature
      ==> Pushed(h, i) == Pushed(h, j)
  }

  /** A 202 means the relay now holds that id with that signature since the time
      it reports, and the very envelope, unless another one under the same
      signature came first. */
  lemma AcceptedIsHeld(h: Host, n: nat, e: Envelope)
    requires Accepts(h, n, e)
    ensures var t := At(h, n + 1).table;
            && e.envelopeId in t
            && t[e.envelopeId].receivedAt == Answer(h, n).storedAt
            && t[e.envelopeId].payload.signature == e.signature
            && (!Answer(h, n).idempotent || SignaturesBind(h) ==> t[e.envelopeId].payload == e)
  {
    Stepped(h, n, e.envelopeId);
    if Answer(h, n).idempotent && SignaturesBind(h) {
      var k := RowOrigin(h, n, e.envelopeId);
      assert Pushed(h, k) == Pushed(h, n);
    }
  }

  /** The step takes the row away from its recipient: an accepted ack of his, or
      a tick at or after its expiry. */
  predicate Removes(h: Host, n: nat, row: Row)
    requires Runs(h) && n < |h.steps|
  {
    || (&& h.steps[n].AckCommit? && Answer(h, n).Dropped200?
        && Request(h, n).header.value.agentId == row.recipientId && row.envelopeId in Request(h, n).envelopeIds)
    || (h.steps[n].EvictTick? && row.expiresAt <= h.steps[n].now)
  }

  /** A row leaves the table at a step exactly when that step removes it, and
      does not change before that. */
  lemma LeavesOnlyIfRemoved(h: Host, n: nat, id: string)
    requires Runs(h) && n < |h.steps| && id in At(h, n).table
    ensures id !in At(h, n + 1).table <==> Removes(h, n, At(h, n).table[id])
    ensures id in At(h, n + 1).table ==> At(h, n + 1).table[id] == At(h, n).table[id]
  {
    Stepped(h, n, id);
    RowStep(h.c, At(h, n), h.steps[n], id);
  }

  /** Nothing from lo up to hi removes the row held under the id at lo. */
  predicate Undisturbed(h: Host, id: string, lo: nat, hi: nat)
    requires Runs(h) && lo <= hi <= |h.steps|
  {
    id in At(h, lo).table ==> forall n :: lo <= n < hi ==> !Removes(h, n, At(h, lo).table[id])
  }

  lemma {:induction false} HeldUntilRemoved(h: Host, id: string, lo: nat, hi: nat)
    requires Runs(h) && lo <= hi <= |h.steps| && id in At(h, lo).table
    requires Undisturbed(h, id, lo, hi)
    ensures id in At(h, hi).table && At(h, hi).table[id] == At(h, lo).table[id]
    decreases hi
  {
    if lo < hi {
      HeldUntilRemoved(h, id, lo, hi - 1);
      LeavesOnlyIfRemoved(h, hi - 1, id);
    }
  }

  /** From when on a pickup asks for rows: from the beginning of time, in
      milliseconds since 1970, if it does not say. */
  predicate AsksSince(since: Since, sinceMs: int) {
    match since
    case NoSince => sinceMs == 0
    case SinceMs(ms) => sinceMs == ms
    case BadSince => false
  }

  /** The step answers a request of `agentId` to pick up rows since `sinceMs`. */
  predicate Picks(h: Host, n: nat, agentId: string, sinceMs: int) {
    && Runs(h) && n < |h.steps| && h.steps[n].PickupCommit? && Answer(h, n).Envelopes200?
    && Request(h, n).forAgent == agentId && AsksSince(Request(h, n).since, sinceMs)
  }

  /** A pickup answers with the envelopes held for the agent since then, all of
      them and no others. */
  lemma PickupIsExact(h: Host, n: nat, agentId: string, sinceMs: int, e: Envelope)
    requires Picks(h, n, agentId, sinceMs)
    ensures e in Answer(h, n).envelopes <==>
              var t := At(h, n).table;
              && e.envelopeId in t && t[e.envelopeId].payload == e
              && e.to == agentId && t[e.envelopeId].receivedAt >= sinceMs
  {
    Stepped(h, n, e.envelopeId);
    var t, served := At(h, n).table, h.steps[n].served;
    var ids := PickupIds(t, agentId, sinceMs);
    if e in Answer(h, n).envelopes {
      var i :| 0 <= i < |served| && served[i].payload == e;
      assert RowIds(served)[i] in Elems(RowIds(served));
      assert served[i].envelopeId in ids;
    }
    if e.envelopeId in ids && t[e.envelopeId].payload == e {
      assert e.envelopeId in Elems(RowIds(served));
      var i :| 0 <= i < |served| && RowIds(served)[i] == e.envelopeId;
      assert Payloads(served)[i] == e;
    }
  }

  /** In the order in which the relay got them, and each once. */
  lemma PickupInOrder(h: Host, n: nat, agentId: string, sinceMs: int, i: nat, j: nat)
    requires Picks(h, n, agentId, sinceMs) && i < j < |Answer(h, n).envelopes|
    ensures var got, t := Answer(h, n).envelopes, At(h, n).table;
            && got[i].envelopeId in t && got[j].envelopeId in t && got[i].envelopeId != got[j].envelopeId
            && t[got[i].envelopeId].receivedAt <= t[got[j].envelopeId].receivedAt
  {
    Stepped(h, n, "");
    var served := h.steps[n].served;
    assert Payloads(served)[i] == served[i].payload && Payloads(served)[j] == served[j].payload;
    assert RowIds(served)[i] != RowIds(served)[j];
  }

  /** Every pickup by the recipient that follows an accepted push, with nothing
      removing the envelope in between, contains it. */
  lemma AcceptedIsPickedUp(h: Host, push: nat, e: Envelope, pickup: nat, sinceMs: int)
    requires Accepts(h, push, e) && push < pickup && Picks(h, pickup, e.to, sinceMs)
    requires !Answer(h, push).idempotent || SignaturesBind(h)
    requires sinceMs <= Answer(h, push).storedAt
    requires Undisturbed(h, e.envelopeId, push + 1, pickup)
    ensures e in Answer(h, pickup).envelopes
  {
    AcceptedIsHeld(h, push, e);
    HeldUntilRemoved(h, e.envelopeId, push + 1, pickup);
    PickupIsExact(h, pickup, e.to, sinceMs, e);
  }

  // ---- receive ----

  /** A relay's answer as the client sees it: any status but 200 gives nothing. */
  function PickupAnswerOf(r: Reply): PickupAnswer {
    if r.Envelopes200? then Envelopes(r.envelopes) else Refused
  }

  lemma {:induction false} AllPickedUpHas(answers: seq<PickupAnswer>, j: nat, e: Envelope)
    requires j < |answers| && answers[j].Envelopes? && e in answers[j].envelopes
    ensures e in AllPickedUp(answers)
  {
    var front := answers[..|answers| - 1];
    if j < |front| {
      AllPickedUpHas(front, j, e);
    }
  }

  predicate Mentions(messages: seq<Message>, id: string) {
    exists m :: m in messages && m.envelopeId == id
  }

  /** receive returns a message with an id exactly when the first copy of that
      id, in inbox order, opens; and then it is that copy's message. */
  lemma ReturnedIffFirstOpens(got: seq<Envelope>, k: nat, open: Envelope -> Option<Message>)
    requires k < |got| && got[k].envelopeId !in IdsOf(got[..k]) && KeepsId(open)
    ensures Mentions(Opened(got, open), got[k].envelopeId) <==> open(got[k]).Some?
    ensures open(got[k]).Some? ==> open(got[k]).value in Opened(got, open)
  {
    if open(got[k]).Some? {
      FirstCopyIsReturned(got, k, open);
    }
    if m :| m in Opened(got, open) && m.envelopeId == got[k].envelopeId {
      var copy := OpenedFrom(FirstCopies(got), m, open);
      FirstCopiesDistinct(got);
      FirstCopiesExact(got, k);
      SameCopy(FirstCopies(got), copy, got[k]);
    }
  }

  lemma SameCopy(copies: seq<Envelope>, a: Envelope, b: Envelope)
    requires DistinctIds(copies) && a in copies && b in copies && a.envelopeId == b.envelopeId
    ensures a == b
  {
  }

  lemma {:induction false} OpenedFrom(copies: seq<Envelope>, m: Message, open: Envelope -> Option<Message>)
    returns (e: Envelope)
    requires m in FlatMap(copies, OpenedBy(open))
    ensures e in copies && open(e) == Some(m)
  {
    var front, last := copies[..|copies| - 1], copies[|copies| - 1];
    if m in FlatMap(front, OpenedBy(open)) {
      e := OpenedFrom(front, m, open);
    } else {
      e := last;
    }
  }

  /** The relay that handed out the first copy of an id. */
  lemma {:induction false} FirstCopySource(answers: seq<PickupAnswer>, k: nat) returns (i: nat)
    requires var got := AllPickedUp(answers);
             k < |got| && got[k].envelopeId !in IdsOf(got[..k])
    ensures i < |answers| && AllPickedUp(answers)[k] in PickedUp()(answers[i])
    ensures forall n :: 0 <= n < i ==> AllPickedUp(answers)[k].envelopeId !in IdsOf(PickedUp()(answers[n]))
  {
    var front, last := answers[..|answers| - 1], answers[|answers| - 1];
    var got, before := AllPickedUp(answers), AllPickedUp(front);
    assert got == before + PickedUp()(last);
    if k < |before| {
      assert got[..k] == before[..k];
      i := FirstCopySource(front, k);
    } else {
      i := |front|;
      assert got[k] == PickedUp()(last)[k - |before|];
      forall n | 0 <= n < i
        ensures got[k].envelopeId !in IdsOf(PickedUp()(answers[n]))
      {
        forall e | e in PickedUp()(answers[n])
          ensures e.envelopeId != got[k].envelopeId
        {
          AllPickedUpHas(front, n, e);
          var x :| 0 <= x < |before| && before[x] == e;
          assert got[..k][x] == e;
        }
      }
    }
  }

  /** Delivery over N relays. The sender's push is accepted by relay j of the
      recipient's inbox; the recipient then picks up from every relay of the
      inbox (pickups[i] is the step of relay i's run that answers). Then the
      id has a first copy in inbox order, handed out by relay `giver`, and
      that copy decides whether receive returns the id. It is the envelope sent
      unless a relay before j handed out another one under that id. */
  lemma Delivered(hosts: seq<Host>, pickups: seq<nat>, j: nat, push: nat, e: Envelope, sinceMs: int,
                  open: Envelope -> Option<Message>)
    returns (k: nat, giver: nat)
    requires |pickups| == |hosts| && j < |hosts|
    requires forall i :: 0 <= i < |hosts| ==> Runs(hosts[i]) && pickups[i] < |hosts[i].steps|
    requires Accepts(hosts[j], push, e) && push < pickups[j] && Picks(hosts[j], pickups[j], e.to, sinceMs)
    requires !Answer(hosts[j], push).idempotent || SignaturesBind(hosts[j])
    requires sinceMs <= Answer(hosts[j], push).storedAt
    requires Undisturbed(hosts[j], e.envelopeId, push + 1, pickups[j])
    requires KeepsId(open)
    ensures var got := AllPickedUp(PickupAnswers(hosts, pickups));
            && e in got
            && k < |got| && got[k].envelopeId == e.envelopeId && e.envelopeId !in IdsOf(got[..k])
            && (Mentions(Opened(got, open), e.envelopeId) <==> open(got[k]).Some?)
            && (open(got[k]).Some? ==> open(got[k]).value in Opened(got, open))
            && giver <= j && got[k] in PickedUp()(PickupAnswers(hosts, pickups)[giver])
            && (giver == j ==> got[k] == e)
  {
    var answers := PickupAnswers(hosts, pickups);
    AcceptedIsPickedUp(hosts[j], push, e, pickups[j], sinceMs);
    AllPickedUpHas(answers, j, e);
    k := FirstCopyOf(AllPickedUp(answers), e.envelopeId);
    ReturnedIffFirstOpens(AllPickedUp(answers), k, open);
    giver := FirstCopySource(answers, k);
    assert e in PickedUp()(answers[j]);
    assert e.envelopeId in IdsOf(PickedUp()(answers[j]));
    if giver == j {
      PickupIsExact(hosts[j], pickups[j], e.to, sinceMs, AllPickedUp(answers)[k]);
      PickupIsExact(hosts[j], pickups[j], e.to, sinceMs, e);
    }
  }

  function PickupAnswers(hosts: seq<Host>, pickups: seq<nat>): seq<PickupAnswer>
    requires |pickups| == |hosts|
    requires forall i :: 0 <= i < |hosts| ==> Runs(hosts[i]) && pickups[i] < |hosts[i].steps|
  {
    seq(|hosts|, i requires 0 <= i < |hosts| => PickupAnswerOf(Answer(hosts[i], pickups[i])))
  }

  // ---- ack ----

  /** The step ends a request of `agentId` to ack `ids`, accepted or not. */
  predicate EndsAck(h: Host, n: nat, agentId: string, ids: seq<string>) {
    && Runs(h) && n < |h.steps| && h.steps[n].AckCommit?
    && Request(h, n).header.value.agentId == agentId && Request(h, n).envelopeIds == ids
  }

  /** A relay's answer as the client sees it: any status but 200 counts for nothing. */
  function AckAnswerOf(r: Reply): AckAnswer {
    if r.Dropped200? then Dropped(r.dropped) else NotOk
  }

  predicate HeldFor(t: Table, id: string, agentId: string) {
    id in t && t[id].recipientId == agentId
  }

  /** An answered ack reports exactly the named ids it held for the agent, drops
      those, and leaves every other row as it was. */
  lemma AckIsExact(h: Host, n: nat, agentId: string, ids: seq<string>, id: string)
    requires EndsAck(h, n, agentId, ids) && Answer(h, n).Dropped200?
    ensures id in Answer(h, n).dropped <==> id in ids && HeldFor(At(h, n).table, id, agentId)
    ensures var t, t' := At(h, n).table, At(h, n + 1).table;
            if id in t && !(id in ids && t[id].recipientId == agentId) then id in t' && t'[id] == t[id] else id !in t'
  {
    Stepped(h, n, id);
    RowStep(h.c, At(h, n), h.steps[n], id);
    assert id in Elems(h.steps[n].hits) <==> id in h.steps[n].hits;
  }

  /** No push for the agent under the id commits in this stretch of the run. */
  predicate NotPushedAgain(h: Host, id: string, agentId: string, lo: nat, hi: nat)
    requires Runs(h) && hi <= |h.steps|
  {
    forall n :: lo <= n < hi && h.steps[n].PushCommit? ==>
      !(Pushed(h, n).envelopeId == id && Pushed(h, n).to == agentId)
  }

  lemma {:induction false} GoneStays(h: Host, id: string, agentId: string, lo: nat, hi: nat)
    requires Runs(h) && lo <= hi <= |h.steps| && !HeldFor(At(h, lo).table, id, agentId)
    requires NotPushedAgain(h, id, agentId, lo, hi)
    ensures !HeldFor(At(h, hi).table, id, agentId)
    decreases hi
  {
    if lo < hi {
      GoneStays(h, id, agentId, lo, hi - 1);
      Stepped(h, hi - 1, id);
      RowStep(h.c, At(h, hi - 1), h.steps[hi - 1], id);
    }
  }

  /** acks[i] is where relay i ends the ack; later[i] is any later point of its
      run, with no push of the id for the agent in between. */
  predicate FannedOut(hosts: seq<Host>, acks: seq<nat>, later: seq<nat>, agentId: string, ids: seq<string>,
                      id: string) {
    && |acks| == |later| == |hosts|
    && forall i :: 0 <= i < |hosts| ==>
         && EndsAck(hosts[i], acks[i], agentId, ids) && acks[i] < later[i] <= |hosts[i].steps|
         && NotPushedAgain(hosts[i], id, agentId, acks[i] + 1, later[i])
  }

  function AckAnswers(hosts: seq<Host>, acks: seq<nat>): seq<AckAnswer>
    requires |acks| == |hosts|
    requires forall i :: 0 <= i < |hosts| ==> Runs(hosts[i]) && acks[i] < |hosts[i].steps|
  {
    seq(|hosts|, i requires 0 <= i < |hosts| => AckAnswerOf(Answer(hosts[i], acks[i])))
  }

  lemma AckedAtOne(h: Host, n: nat, later: nat, agentId: string, ids: seq<string>, id: string)
    requires EndsAck(h, n, agentId, ids) && Answer(h, n).Dropped200? && n < later <= |h.steps|
    requires NotPushedAgain(h, id, agentId, n + 1, later)
    ensures id in ids ==> !HeldFor(At(h, later).table, id, agentId)
  {
    AckIsExact(h, n, agentId, ids, id);
    if id in ids {
      GoneStays(h, id, agentId, n + 1, later);
    }
  }

  /** After an ack over N relays: no relay that answered 200 holds an acked id
      for the agent, and the client is told of an id exactly when some relay
      that answered 200 held it for the agent until then. */
  lemma AckedEverywhere(hosts: seq<Host>, acks: seq<nat>, later: seq<nat>, agentId: string, ids: seq<string>,
                        id: string)
    requires FannedOut(hosts, acks, later, agentId, ids, id)
    ensures forall i :: 0 <= i < |hosts| && Answer(hosts[i], acks[i]).Dropped200? && id in ids ==>
              !HeldFor(At(hosts[i], later[i]).table, id, agentId)
    ensures SomeDropped(AckAnswers(hosts, acks), id) <==>
              id in ids && exists i :: 0 <= i < |hosts| && Answer(hosts[i], acks[i]).Dropped200?
                             && HeldFor(At(hosts[i], acks[i]).table, id, agentId)
  {
    var answers := AckAnswers(hosts, acks);
    forall i | 0 <= i < |hosts| && Answer(hosts[i], acks[i]).Dropped200?
      ensures id in ids ==> !HeldFor(At(hosts[i], later[i]).table, id, agentId)
      ensures id in answers[i].ids <==> id in ids && HeldFor(At(hosts[i], acks[i]).table, id, agentId)
    {
      AckIsExact(hosts[i], acks[i], agentId, ids, id);
      AckedAtOne(hosts[i], acks[i], later[i], agentId, ids, id);
    }
    if id in ids && exists i :: 0 <= i < |hosts| && Answer(hosts[i], acks[i]).Dropped200?
                     && HeldFor(At(hosts[i], acks[i]).table, id, agentId) {
      var i :| 0 <= i < |hosts| && Answer(hosts[i], acks[i]).Dropped200?
                     && HeldFor(At(hosts[i], acks[i]).table, id, agentId);
      assert answers[i].Dropped? && id in answers[i].ids;
    }
  }
}
