/** ScutClient: priority fallback, deduplicated receive, ack fan-out. What the
    network answers is an oracle, one answer per request made.
    Source: packages/core/src/client.ts. */
module Client {
  import opened Basics
  import opened RelayRepo

  datatype RelayEntry = RelayEntry(host: string, priority: int)

  // ---- Array.prototype.sort by priority ----

  function InsertRelay(relay: RelayEntry, sorted: seq<RelayEntry>): seq<RelayEntry> {
    if |sorted| == 0 || relay.priority <= sorted[0].priority then [relay] + sorted
    else [sorted[0]] + InsertRelay(relay, sorted[1..])
  }

  function ByPriority(relays: seq<RelayEntry>): seq<RelayEntry> {
    if |relays| == 0 then [] else InsertRelay(relays[0], ByPriority(relays[1..]))
  }

  predicate InOrder(relays: seq<RelayEntry>) {
    forall i, j :: 0 <= i < j < |relays| ==> relays[i].priority <= relays[j].priority
  }

  function One(relay: RelayEntry, p: int): seq<RelayEntry> {
    if relay.priority == p then [relay] else []
  }

  /** The relays of one priority, in the order listed. */
  function WithPriority(relays: seq<RelayEntry>, p: int): seq<RelayEntry> {
    if |relays| == 0 then [] else One(relays[0], p) + WithPriority(relays[1..], p)
  }

  predicate AtLeast(relays: seq<RelayEntry>, p: int) {
    forall i :: 0 <= i < |relays| ==> p <= relays[i].priority
  }

  lemma {:induction false} InsertInOrder(relay: RelayEntry, sorted: seq<RelayEntry>, p: int)
    requires InOrder(sorted)
    ensures InOrder(InsertRelay(relay, sorted))
    ensures AtLeast(sorted, p) && p <= relay.priority ==> AtLeast(InsertRelay(relay, sorted), p)
  {
    if |sorted| > 0 && relay.priority > sorted[0].priority {
      InsertInOrder(relay, sorted[1..], sorted[0].priority);
      InsertInOrder(relay, sorted[1..], p);
      assert AtLeast(sorted[1..], sorted[0].priority);
    }
  }

  /** Relays of different priorities are never both listed. */
  lemma OnesCommute(a: RelayEntry, b: RelayEntry, rest: seq<RelayEntry>, p: int)
    requires a.priority != b.priority
    ensures One(b, p) + (One(a, p) + rest) == One(a, p) + (One(b, p) + rest)
  {
    assert One(a, p) == [] || One(b, p) == [];
  }

  lemma WithCons(relay: RelayEntry, rest: seq<RelayEntry>, p: int)
    ensures WithPriority([relay] + rest, p) == One(relay, p) + WithPriority(rest, p)
  {
    assert ([relay] + rest)[1..] == rest;
  }

  lemma {:induction false} InsertStable(relay: RelayEntry, sorted: seq<RelayEntry>, p: int)
    ensures WithPriority(InsertRelay(relay, sorted), p) == One(relay, p) + WithPriority(sorted, p)
  {
    if |sorted| == 0 || relay.priority <= sorted[0].priority {
      WithCons(relay, sorted, p);
    } else {
      InsertStable(relay, sorted[1..], p);
      WithCons(sorted[0], InsertRelay(relay, sorted[1..]), p);
      OnesCommute(relay, sorted[0], WithPriority(sorted[1..], p), p);
    }
  }

  /** The sort puts the relays in priority order and keeps the listed order
      within a priority. */
  lemma {:induction false} SortIsStable(relays: seq<RelayEntry>, p: int)
    ensures InOrder(ByPriority(relays))
    ensures WithPriority(ByPriority(relays), p) == WithPriority(relays, p)
  {
    if |relays| > 0 {
      SortIsStable(relays[1..], p);
      InsertInOrder(relays[0], ByPriority(relays[1..]), p);
      InsertStable(relays[0], ByPriority(relays[1..]), p);
    }
  }

  /** Those two properties leave only one sequence. */
  lemma {:induction false} StableOrderIsUnique(a: seq<RelayEntry>, b: seq<RelayEntry>)
    requires InOrder(a) && InOrder(b)
    requires forall p :: WithPriority(a, p) == WithPriority(b, p)
    ensures a == b
  {
    EmptyTogether(a, b);
    if |a| > 0 {
      assert WithPriority(a, a[0].priority) == WithPriority(b, a[0].priority);
      assert WithPriority(a, b[0].priority) == WithPriority(b, b[0].priority);
      LeastFirst(a, b);
      forall p
        ensures WithPriority(a[1..], p) == WithPriority(b[1..], p)
      {
        assert WithPriority(a, p) == WithPriority(b, p);
        var n := |One(a[0], p)|;
        assert WithPriority(a, p)[n..] == WithPriority(a[1..], p);
        assert WithPriority(b, p)[n..] == WithPriority(b[1..], p);
      }
      StableOrderIsUnique(a[1..], b[1..]);
      assert a == [a[0]] + a[1..] && b == [b[0]] + b[1..];
    }
  }

  lemma EmptyTogether(a: seq<RelayEntry>, b: seq<RelayEntry>)
    requires forall p :: WithPriority(a, p) == WithPriority(b, p)
    ensures |a| == 0 <==> |b| == 0
  {
    if |a| > 0 {
      assert WithPriority(a, a[0].priority) == WithPriority(b, a[0].priority);
    }
    if |b| > 0 {
      assert WithPriority(a, b[0].priority) == WithPriority(b, b[0].priority);
    }
  }

  /** The head of one sequence is no later in priority than that of the other. */
  lemma HeadLeast(a: seq<RelayEntry>, b: seq<RelayEntry>)
    requires |a| > 0 && |b| > 0 && InOrder(b)
    requires WithPriority(a, a[0].priority) == WithPriority(b, a[0].priority)
    ensures b[0].priority <= a[0].priority
  {
    PresentIfNonempty(b, a[0].priority);
    var i :| 0 <= i < |b| && b[i].priority == a[0].priority;
    assert i > 0 ==> b[0].priority <= b[i].priority;
  }

  lemma LeastFirst(a: seq<RelayEntry>, b: seq<RelayEntry>)
    requires |a| > 0 && |b| > 0 && InOrder(a) && InOrder(b)
    requires WithPriority(a, a[0].priority) == WithPriority(b, a[0].priority)
    requires WithPriority(a, b[0].priority) == WithPriority(b, b[0].priority)
    ensures a[0] == b[0]
  {
    HeadLeast(a, b);
    HeadLeast(b, a);
    assert WithPriority(a, a[0].priority)[0] == a[0] && WithPriority(b, a[0].priority)[0] == b[0];
  }

  lemma {:induction false} PresentIfNonempty(relays: seq<RelayEntry>, p: int)
    ensures WithPriority(relays, p) != [] <==> exists i :: 0 <= i < |relays| && relays[i].priority == p
  {
    if |relays| > 0 {
      PresentIfNonempty(relays[1..], p);
      if relays[0].priority != p && WithPriority(relays, p) != [] {
        var i :| 0 <= i < |relays[1..]| && relays[1..][i].priority == p;
        assert relays[i + 1].priority == p;
      }
      if i :| 0 <= i < |relays| && relays[i].priority == p {
        assert i > 0 ==> relays[1..][i - 1].priority == p;
      }
    }
  }

  // ---- send ----

  datatype PushAnswer = HttpAnswer(status: int, storedAt: int, envelopeId: string, idempotent: bool) | FetchThrew

  datatype SendOutcome =
    | Sent(relay: string, storedAt: int, envelopeId: string, idempotent: bool)
    | NoRelays
    | AllRelaysFailed(attempts: nat)
    | Aborted

  function Routes(relays: seq<RelayEntry>, outbound: Option<seq<string>>): seq<string> {
    if outbound.Some? then outbound.value else Hosts(ByPriority(relays))
  }

  function Hosts(relays: seq<RelayEntry>): seq<string> {
    seq(|relays|, i requires 0 <= i < |relays| => relays[i].host)
  }

  lemma {:induction false} SortKeepsAll(relays: seq<RelayEntry>)
    ensures InOrder(ByPriority(relays)) && forall p :: WithPriority(ByPriority(relays), p) == WithPriority(relays, p)
  {
    SortIsStable(relays, 0);
    forall p
      ensures WithPriority(ByPriority(relays), p) == WithPriority(relays, p)
    {
      SortIsStable(relays, p);
    }
  }

  /** With no override, the hosts of the listed relays, lowest priority number
      first and in the listed order within a priority; otherwise the override. */
  ghost predicate RouteFits(relays: seq<RelayEntry>, outbound: Option<seq<string>>, route: seq<string>) {
    match outbound
    case Some(hosts) => route == hosts
    case None =>
      exists r: seq<RelayEntry> :: SameRelays(relays, r) && HostsAre(route, r)
  }

  predicate HostsAre(route: seq<string>, r: seq<RelayEntry>) {
    |route| == |r| && forall i :: 0 <= i < |r| ==> route[i] == r[i].host
  }

  ghost predicate SameRelays(relays: seq<RelayEntry>, r: seq<RelayEntry>) {
    InOrder(r) && forall p :: WithPriority(r, p) == WithPriority(relays, p)
  }

  /** The route is that list, and no other list is. */
  lemma RoutesInOrder(relays: seq<RelayEntry>, outbound: Option<seq<string>>, route: seq<string>)
    ensures RouteFits(relays, outbound, route) <==> route == Routes(relays, outbound)
  {
    SortKeepsAll(relays);
    assert SameRelays(relays, ByPriority(relays));
    assert HostsAre(Hosts(ByPriority(relays)), ByPriority(relays));
    if outbound.None? && RouteFits(relays, outbound, route) {
      var r: seq<RelayEntry> :| SameRelays(relays, r) && HostsAre(route, r);
      forall p
        ensures WithPriority(r, p) == WithPriority(ByPriority(relays), p)
      {
        assert WithPriority(r, p) == WithPriority(relays, p);
      }
      StableOrderIsUnique(r, ByPriority(relays));
    }
  }

  /** An answer after which the next relay is tried. */
  predicate FallsThrough(a: PushAnswer) {
    a.HttpAnswer? && a.status != 202 && a.status != 409
  }

  predicate Accepting(a: PushAnswer) {
    a.HttpAnswer? && a.status == 202
  }

  /** The relays before the k-th were all tried in vain. */
  predicate Reached(answers: nat -> PushAnswer, k: nat) {
    forall i :: 0 <= i < k ==> FallsThrough(answers(i))
  }

  /** Some relay is reached that accepts, */
  predicate Succeeds(answers: nat -> PushAnswer, n: nat) {
    exists k :: 0 <= k < n && Reached(answers, k) && Accepting(answers(k))
  }

  /** or where the fetch throws. */
  predicate Breaks(answers: nat -> PushAnswer, n: nat) {
    exists k :: 0 <= k < n && Reached(answers, k) && answers(k).FetchThrew?
  }

  /** send, after the envelope is built: `answers(i)` is what the i-th relay
      tried answers, and `asked` how many were. */
  method Send(relays: seq<RelayEntry>, outbound: Option<seq<string>>, answers: nat -> PushAnswer)
    returns (outcome: SendOutcome, ghost asked: nat)
    ensures outcome.NoRelays? <==> relays == []
    ensures outcome.Sent? <==> relays != [] && Succeeds(answers, |Routes(relays, outbound)|)
    ensures outcome.Aborted? <==> relays != [] && Breaks(answers, |Routes(relays, outbound)|)
    ensures !outcome.NoRelays? ==> asked <= |Routes(relays, outbound)| && (asked > 0 ==> Reached(answers, asked - 1))
    ensures outcome.Sent? ==>
              && asked > 0 && Accepting(answers(asked - 1))
              && outcome == Sent(Routes(relays, outbound)[asked - 1], answers(asked - 1).storedAt,
                                 answers(asked - 1).envelopeId, answers(asked - 1).idempotent)
    ensures 0 < asked < |Routes(relays, outbound)| ==>
              answers(asked - 1).FetchThrew? || answers(asked - 1).status == 202 || answers(asked - 1).status == 409
    ensures outcome.AllRelaysFailed? ==>
              && outcome.attempts == asked
              && if asked > 0 && answers(asked - 1).HttpAnswer? && answers(asked - 1).status == 409 then true
                 else asked == |Routes(relays, outbound)| && Reached(answers, asked)
  {
    asked := 0;
    if |relays| == 0 {
      return NoRelays, asked;
    }
    var routeList := Routes(relays, outbound);
    for i := 0 to |routeList|
      invariant asked == i
      invariant Reached(answers, i)
    {
      var res := answers(i);
      asked := i + 1;
      EndsAt(answers, i, |routeList|);
      if res.FetchThrew? {
        return Aborted, asked;
      }
      if res.status == 202 {
        return Sent(routeList[i], res.storedAt, res.envelopeId, res.idempotent), asked;
      }
      if res.status == 409 {
        return AllRelaysFailed(i + 1), asked;
      }
    }
    NoneEnds(answers, |routeList|);
    return AllRelaysFailed(|routeList|), asked;
  }

  /** The first answer that does not fall through ends it. */
  lemma EndsAt(answers: nat -> PushAnswer, i: nat, n: nat)
    requires i < n && Reached(answers, i)
    ensures !FallsThrough(answers(i)) ==>
              && (Succeeds(answers, n) <==> Accepting(answers(i)))
              && (Breaks(answers, n) <==> answers(i).FetchThrew?)
  {
    if !FallsThrough(answers(i)) {
      forall k: nat | k < n && Reached(answers, k) && !FallsThrough(answers(k))
        ensures k == i
      {
      }
    }
  }

  lemma NoneEnds(answers: nat -> PushAnswer, n: nat)
    requires Reached(answers, n)
    ensures !Succeeds(answers, n) && !Breaks(answers, n)
  {
  }

  /** Only an HTTP answer other than 202 and 409 lets the next relay be asked. */
  lemma ReachedIff(answers: nat -> PushAnswer, k: nat)
    ensures Reached(answers, k)
            <==> forall i :: 0 <= i < k ==>
                   answers(i) != FetchThrew && answers(i).status !in {202, 409}
  {
  }

  // ---- receive ----

  /** A message as openEnvelope returns it. */
  datatype Message = Message(envelopeId: string, body: string)

  datatype PickupAnswer = Envelopes(envelopes: seq<Envelope>) | Refused | PickupThrew

  datatype ReceiveOutcome = Received(messages: seq<Message>) | NoInbox | ReceiveAborted

  function PickedUp(): PickupAnswer -> seq<Envelope> {
    (a: PickupAnswer) => if a.Envelopes? then a.envelopes else []
  }

  /** All pickups, in inbox order. */
  function AllPickedUp(answers: seq<PickupAnswer>): seq<Envelope> {
    FlatMap(answers, PickedUp())
  }

  function IdsOf(envelopes: seq<Envelope>): set<string> {
    set e | e in envelopes :: e.envelopeId
  }

  /** The first copy of each id. */
  function FirstCopies(envelopes: seq<Envelope>): seq<Envelope> {
    if |envelopes| == 0 then []
    else
      var front, last := envelopes[..|envelopes| - 1], envelopes[|envelopes| - 1];
      FirstCopies(front) + if last.envelopeId in IdsOf(front) then [] else [last]
  }

  function OpenedBy(open: Envelope -> Option<Message>): Envelope -> seq<Message> {
    (e: Envelope) => if open(e).Some? then [open(e).value] else []
  }

  /** What receive returns: each id's first copy, if it opens. */
  function Opened(envelopes: seq<Envelope>, open: Envelope -> Option<Message>): seq<Message> {
    FlatMap(FirstCopies(envelopes), OpenedBy(open))
  }

  /** receive: `open` is resolve-and-openEnvelope, None when it throws. */
  method Receive(answers: seq<PickupAnswer>, open: Envelope -> Option<Message>) returns (outcome: ReceiveOutcome)
    ensures outcome.NoInbox? <==> answers == []
    ensures outcome.ReceiveAborted? <==> PickupThrew in answers
    ensures outcome.Received? ==> outcome.messages == Opened(AllPickedUp(answers), open)
  {
    if |answers| == 0 {
      return NoInbox;
    }
    var seen: set<string> := {};
    var messages: seq<Message> := [];
    ghost var got: seq<Envelope> := [];
    for i := 0 to |answers|
      invariant PickupThrew !in answers[..i]
      invariant got == AllPickedUp(answers[..i])
      invariant UpTo(got, open, seen, messages)
    {
      if answers[i].PickupThrew? {
        return ReceiveAborted;
      }
      NextAnswer(answers, i);
      var envelopes := PickedUp()(answers[i]);
      seen, messages := OpenNew(envelopes, open, seen, messages, got);
      got := got + envelopes;
    }
    assert answers[..|answers|] == answers;
    return Received(messages);
  }

  /** The inner loop of receive, over one relay's envelopes. */
  method OpenNew(envelopes: seq<Envelope>, open: Envelope -> Option<Message>, seen0: set<string>,
                 messages0: seq<Message>, ghost got0: seq<Envelope>)
    returns (seen: set<string>, messages: seq<Message>)
    requires UpTo(got0, open, seen0, messages0)
    ensures UpTo(got0 + envelopes, open, seen, messages)
  {
    seen, messages := seen0, messages0;
    assert got0 + envelopes[..0] == got0;
    for k := 0 to |envelopes|
      invariant UpTo(got0 + envelopes[..k], open, seen, messages)
    {
      var envelope := envelopes[k];
      TakeOneMore(got0, envelopes, k);
      NextEnvelope(got0 + envelopes[..k], envelope, open, seen, messages);
      if envelope.envelopeId in seen {
        continue;
      }
      seen := seen + {envelope.envelopeId};
      var msg := open(envelope);
      if msg.Some? {
        messages := messages + [msg.value];
      }
    }
    assert envelopes[..|envelopes|] == envelopes;
  }

  /** receive's two variables after the envelopes `got`. */
  predicate UpTo(got: seq<Envelope>, open: Envelope -> Option<Message>, seen: set<string>, messages: seq<Message>) {
    seen == IdsOf(got) && messages == Opened(got, open)
  }

  lemma NextAnswer(answers: seq<PickupAnswer>, i: nat)
    requires i < |answers|
    ensures AllPickedUp(answers[..i + 1]) == AllPickedUp(answers[..i]) + PickedUp()(answers[i])
    ensures PickupThrew in answers[..i + 1] <==> PickupThrew in answers[..i] || answers[i].PickupThrew?
  {
    assert answers[..i + 1] == answers[..i] + [answers[i]];
    FlatMapAppend(answers[..i], answers[i], PickedUp());
  }

  lemma NextEnvelope(got: seq<Envelope>, e: Envelope, open: Envelope -> Option<Message>, seen: set<string>,
                     messages: seq<Message>)
    requires UpTo(got, open, seen, messages)
    ensures if e.envelopeId in seen then UpTo(got + [e], open, seen, messages)
            else UpTo(got + [e], open, seen + {e.envelopeId},
                      if open(e).Some? then messages + [open(e).value] else messages)
  {
    IdsNext(got, e);
    OpenedNext(got, e, open);
    assert messages + [] == messages;
  }

  lemma IdsNext(envelopes: seq<Envelope>, e: Envelope)
    ensures IdsOf(envelopes + [e]) == IdsOf(envelopes) + {e.envelopeId}
  {
  }

  lemma OpenedNext(envelopes: seq<Envelope>, e: Envelope, open: Envelope -> Option<Message>)
    ensures Opened(envelopes + [e], open)
            == Opened(envelopes, open)
               + if e.envelopeId in IdsOf(envelopes) then [] else OpenedBy(open)(e)
  {
    assert (envelopes + [e])[..|envelopes|] == envelopes;
    if e.envelopeId in IdsOf(envelopes) {
      assert FirstCopies(envelopes + [e]) == FirstCopies(envelopes);
      assert Opened(envelopes, open) + [] == Opened(envelopes, open);
    } else {
      FlatMapAppend(FirstCopies(envelopes), e, OpenedBy(open));
    }
  }

  /** FirstCopies misses no id and invents none. */
  lemma {:induction false} FirstCopiesCover(envelopes: seq<Envelope>)
    ensures IdsOf(FirstCopies(envelopes)) == IdsOf(envelopes)
  {
    if |envelopes| > 0 {
      var front, last := envelopes[..|envelopes| - 1], envelopes[|envelopes| - 1];
      FirstCopiesCover(front);
      assert envelopes == front + [last];
      IdsNext(front, last);
      IdsNext(FirstCopies(front), last);
      assert FirstCopies(front) + [] == FirstCopies(front);
    }
  }

  predicate DistinctIds(envelopes: seq<Envelope>) {
    forall i, j :: 0 <= i < j < |envelopes| ==> envelopes[i].envelopeId != envelopes[j].envelopeId
  }

  lemma DistinctNext(envelopes: seq<Envelope>, e: Envelope)
    requires DistinctIds(envelopes) && e.envelopeId !in IdsOf(envelopes)
    ensures DistinctIds(envelopes + [e])
  {
  }

  /** FirstCopies keeps one copy per id. */
  lemma {:induction false} FirstCopiesDistinct(envelopes: seq<Envelope>)
    ensures DistinctIds(FirstCopies(envelopes))
  {
    if |envelopes| > 0 {
      var front, last := envelopes[..|envelopes| - 1], envelopes[|envelopes| - 1];
      FirstCopiesDistinct(front);
      if last.envelopeId in IdsOf(front) {
        assert FirstCopies(envelopes) == FirstCopies(front);
      } else {
        FirstCopiesCover(front);
        DistinctNext(FirstCopies(front), last);
      }
    }
  }

  /** The copy FirstCopies keeps is the first. */
  lemma {:induction false} FirstCopiesExact(envelopes: seq<Envelope>, k: nat)
    requires k < |envelopes|
    ensures envelopes[k].envelopeId !in IdsOf(envelopes[..k]) ==> envelopes[k] in FirstCopies(envelopes)
  {
    var front, last := envelopes[..|envelopes| - 1], envelopes[|envelopes| - 1];
    if k < |front| {
      FirstCopiesExact(front, k);
      assert envelopes[..k] == front[..k];
    } else {
      assert envelopes[..k] == front;
    }
  }

  lemma {:induction false} OpenedContains(copies: seq<Envelope>, e: Envelope, open: Envelope -> Option<Message>)
    requires e in copies && open(e).Some?
    ensures open(e).value in FlatMap(copies, OpenedBy(open))
  {
    var front, last := copies[..|copies| - 1], copies[|copies| - 1];
    assert copies == front + [last];
    if e in front {
      OpenedContains(front, e, open);
    } else {
      assert OpenedBy(open)(e) == [open(e).value];
    }
  }

  /** receive returns the message of every id whose first copy opens. */
  lemma FirstCopyIsReturned(envelopes: seq<Envelope>, k: nat, open: Envelope -> Option<Message>)
    requires k < |envelopes| && envelopes[k].envelopeId !in IdsOf(envelopes[..k]) && open(envelopes[k]).Some?
    ensures open(envelopes[k]).value in Opened(envelopes, open)
  {
    FirstCopiesExact(envelopes, k);
    OpenedContains(FirstCopies(envelopes), envelopes[k], open);
  }

  /** Every id that was picked up has a first copy. */
  lemma {:induction false} FirstCopyOf(envelopes: seq<Envelope>, id: string) returns (k: nat)
    requires id in IdsOf(envelopes)
    ensures k < |envelopes| && envelopes[k].envelopeId == id && id !in IdsOf(envelopes[..k])
  {
    var front := envelopes[..|envelopes| - 1];
    assert envelopes == front + [envelopes[|envelopes| - 1]];
    if id in IdsOf(front) {
      k := FirstCopyOf(front, id);
      assert envelopes[..k] == front[..k];
    } else {
      k := |front|;
    }
  }

  // ---- The order of what receive returns ----

  predicate Ascending(places: seq<nat>, n: nat) {
    && (forall i, j :: 0 <= i < j < |places| ==> places[i] < places[j])
    && (forall i :: 0 <= i < |places| ==> places[i] < n)
  }

  /** The envelope at k is the first with its id, and it opens. */
  predicate Opens(envelopes: seq<Envelope>, open: Envelope -> Option<Message>, k: nat) {
    k < |envelopes| && envelopes[k].envelopeId !in IdsOf(envelopes[..k]) && open(envelopes[k]).Some?
  }

  /** The messages are those of the envelopes at these places. */
  predicate MessagesAt(envelopes: seq<Envelope>, open: Envelope -> Option<Message>, places: seq<nat>,
                       messages: seq<Message>) {
    && |messages| == |places| && Ascending(places, |envelopes|)
    && forall i :: 0 <= i < |places| ==>
         Opens(envelopes, open, places[i]) && messages[i] == open(envelopes[places[i]]).value
  }

  lemma PlacesStay(envelopes: seq<Envelope>, e: Envelope, open: Envelope -> Option<Message>, k: nat)
    requires k < |envelopes|
    ensures Opens(envelopes + [e], open, k) <==> Opens(envelopes, open, k)
  {
    assert (envelopes + [e])[..k] == envelopes[..k];
  }

  /** One more envelope. */
  lemma NextPlace(front: seq<Envelope>, e: Envelope, open: Envelope -> Option<Message>, before: seq<nat>)
    requires MessagesAt(front, open, before, Opened(front, open))
    ensures Opens(front + [e], open, |front|) ==>
              MessagesAt(front + [e], open, before + [|front|], Opened(front + [e], open))
    ensures !Opens(front + [e], open, |front|) ==>
              MessagesAt(front + [e], open, before, Opened(front + [e], open))
  {
    OpenedNext(front, e, open);
    assert (front + [e])[..|front|] == front;
    assert Opened(front, open) + [] == Opened(front, open);
    forall i | 0 <= i < |before|
      ensures Opens(front + [e], open, before[i]) && (front + [e])[before[i]] == front[before[i]]
    {
      PlacesStay(front, e, open, before[i]);
    }
  }

  lemma {:induction false} PlacesOf(envelopes: seq<Envelope>, open: Envelope -> Option<Message>)
    returns (places: seq<nat>)
    ensures MessagesAt(envelopes, open, places, Opened(envelopes, open))
    ensures forall k :: 0 <= k < |envelopes| && Opens(envelopes, open, k) ==> k in places
  {
    if |envelopes| == 0 {
      places := [];
    } else {
      var front, last := envelopes[..|envelopes| - 1], envelopes[|envelopes| - 1];
      var before := PlacesOf(front, open);
      assert envelopes == front + [last];
      NextPlace(front, last, open, before);
      forall k | 0 <= k < |front|
        ensures Opens(envelopes, open, k) <==> Opens(front, open, k)
      {
        PlacesStay(front, last, open, k);
      }
      places := if Opens(envelopes, open, |front|) then before + [|front|] else before;
    }
  }

  /** receive returns the messages of the first copies that open, all of them, in
      the order in which they were picked up. */
  lemma ReceivedInOrder(envelopes: seq<Envelope>, open: Envelope -> Option<Message>) returns (places: seq<nat>)
    ensures MessagesAt(envelopes, open, places, Opened(envelopes, open))
    ensures forall k: nat :: k in places <==> Opens(envelopes, open, k)
  {
    places := PlacesOf(envelopes, open);
  }

  predicate FromIds(messages: seq<Message>, ids: set<string>) {
    forall i :: 0 <= i < |messages| ==> messages[i].envelopeId in ids
  }

  predicate DistinctMessages(messages: seq<Message>) {
    forall i, j :: 0 <= i < j < |messages| ==> messages[i].envelopeId != messages[j].envelopeId
  }

  /** An opened message carries the id of its envelope. */
  ghost predicate KeepsId(open: Envelope -> Option<Message>) {
    forall e :: open(e).Some? ==> open(e).value.envelopeId == e.envelopeId
  }

  lemma {:induction false} OpenedApart(copies: seq<Envelope>, open: Envelope -> Option<Message>)
    requires DistinctIds(copies) && KeepsId(open)
    ensures FromIds(FlatMap(copies, OpenedBy(open)), IdsOf(copies))
    ensures DistinctMessages(FlatMap(copies, OpenedBy(open)))
  {
    if |copies| > 0 {
      var front, last := copies[..|copies| - 1], copies[|copies| - 1];
      OpenedApart(front, open);
      assert copies == front + [last];
      IdsNext(front, last);
      assert last.envelopeId !in IdsOf(front);
      FlatMapAppend(front, last, OpenedBy(open));
    }
  }

  /** No id is returned twice by one call. */
  lemma OpenedDistinct(envelopes: seq<Envelope>, open: Envelope -> Option<Message>)
    requires KeepsId(open)
    ensures FromIds(Opened(envelopes, open), IdsOf(envelopes)) && DistinctMessages(Opened(envelopes, open))
  {
    FirstCopiesDistinct(envelopes);
    FirstCopiesCover(envelopes);
    OpenedApart(FirstCopies(envelopes), open);
  }

  // ---- ack ----

  datatype AckAnswer = Dropped(ids: seq<string>) | NotOk | AckThrew

  datatype AckOutcome = AckedIds(dropped: set<string>) | AckAborted

  /** Some relay says it dropped the id. */
  predicate SomeDropped(answers: seq<AckAnswer>, id: string) {
    exists i :: 0 <= i < |answers| && answers[i].Dropped? && id in answers[i].ids
  }

  lemma NextDropped(answers: seq<AckAnswer>, i: nat)
    requires i < |answers|
    ensures AckThrew in answers[..i + 1] <==> AckThrew in answers[..i] || answers[i].AckThrew?
    ensures forall id :: SomeDropped(answers[..i + 1], id) <==>
              SomeDropped(answers[..i], id) || (answers[i].Dropped? && id in answers[i].ids)
  {
  }

  /** ack over the inbox: the ids that some relay said it dropped. */
  method Ack(envelopeIds: seq<string>, answers: seq<AckAnswer>) returns (outcome: AckOutcome)
    ensures envelopeIds == [] ==> outcome == AckedIds({})
    ensures envelopeIds != [] ==> (outcome.AckAborted? <==> AckThrew in answers)
    ensures envelopeIds != [] && outcome.AckedIds? ==>
              forall id :: id in outcome.dropped <==> SomeDropped(answers, id)
  {
    if |envelopeIds| == 0 {
      return AckedIds({});
    }
    var dropped: set<string> := {};
    for i := 0 to |answers|
      invariant AckThrew !in answers[..i]
      invariant forall id :: id in dropped <==> SomeDropped(answers[..i], id)
    {
      if answers[i].AckThrew? {
        return AckAborted;
      }
      NextDropped(answers, i);
      if answers[i].Dropped? {
        dropped := dropped + Elems(answers[i].ids);
      }
    }
    assert answers[..|answers|] == answers;
    return AckedIds(dropped);
  }
}
