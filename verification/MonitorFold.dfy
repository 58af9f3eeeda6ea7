/** What the monitor's entry list is, as a function of what it was told, and
    the proof that it agrees with the relay it listens to.

    Sources: packages/monitor/src/store.ts and the onEvent dispatch of
    packages/monitor/src/App.tsx. */
module MonitorFold {
  import opened Basics
  import opened RelayRepo
  import opened RelayEvents
  import opened RelayMachine
  import opened RelayRuns

  const BUFFER_CAP: nat := 500

  datatype EntryStatus = StatusStored | StatusAcked | StatusExpired

  datatype Entry = Entry(
    envelope: Envelope,
    receivedAt: int,
    status: EntryStatus,
    decryptable: bool,
    revealedAt: Option<int>)

  /** What reaches the store: a relay event, or the start of a reveal. */
  datatype MonitorStep = OnEvent(event: Event) | OnReveal(envelopeId: string, startedAt: int)

  function AfterAdd(entries: seq<Entry>, entry: Entry): seq<Entry> {
    LastOf(entries + [entry], BUFFER_CAP)
  }

  function AfterAcked(entries: seq<Entry>, ids: seq<string>): seq<Entry> {
    seq(|entries|, i requires 0 <= i < |entries| =>
      if entries[i].envelope.envelopeId in ids && entries[i].status == StatusStored
      then entries[i].(status := StatusAcked) else entries[i])
  }

  function AfterExpired(entries: seq<Entry>, id: string): seq<Entry> {
    seq(|entries|, i requires 0 <= i < |entries| =>
      if entries[i].envelope.envelopeId == id then entries[i].(status := StatusExpired) else entries[i])
  }

  /** The first entry with this id, or |entries|. */
  function FirstWith(entries: seq<Entry>, id: string): (k: nat)
    ensures k <= |entries|
    ensures k < |entries| ==> entries[k].envelope.envelopeId == id
    ensures forall i :: 0 <= i < k ==> entries[i].envelope.envelopeId != id
  {
    if |entries| == 0 || entries[0].envelope.envelopeId == id then 0
    else 1 + FirstWith(entries[1..], id)
  }

  function AfterReveal(entries: seq<Entry>, id: string, startedAt: int): seq<Entry> {
    var k := FirstWith(entries, id);
    if k < |entries| then entries[k := entries[k].(revealedAt := Some(startedAt))] else entries
  }

  /** The onEvent dispatch; `holdsKey` is the keyring's holdsKeyFor. */
  function Dispatch(entries: seq<Entry>, event: Event, holdsKey: string -> bool): seq<Entry> {
    match event
    case Received(e, at, _) => AfterAdd(entries, Entry(e, at, StatusStored, holdsKey(e.to), None))
    case Acked(ids, _) => AfterAcked(entries, ids)
    case Expired(id, _) => AfterExpired(entries, id)
  }

  function StepOn(before: seq<Entry>, step: MonitorStep, holdsKey: string -> bool): seq<Entry> {
    match step
    case OnEvent(event) => Dispatch(before, event, holdsKey)
    case OnReveal(id, at) => AfterReveal(before, id, at)
  }

  function Fold(steps: seq<MonitorStep>, holdsKey: string -> bool): seq<Entry> {
    if |steps| == 0 then [] else StepOn(Fold(steps[..|steps| - 1], holdsKey), steps[|steps| - 1], holdsKey)
  }

  function EventOf(): MonitorStep -> seq<Event> {
    (step: MonitorStep) => if step.OnEvent? then [step.event] else []
  }

  function EventsOf(steps: seq<MonitorStep>): seq<Event> {
    FlatMap(steps, EventOf())
  }

  /** What the monitor is told once and for all about an envelope: when the relay
      got it, and whether one of the keys at hand is its recipient's. */
  datatype Fact = Fact(envelope: Envelope, receivedAt: int, decryptable: bool)

  function ArrivalOf(holdsKey: string -> bool): Event -> seq<Fact> {
    (event: Event) =>
      if event.Received? then [Fact(event.envelope, event.receivedAt, holdsKey(event.envelope.to))] else []
  }

  /** The received events, in order. */
  function Arrived(events: seq<Event>, holdsKey: string -> bool): seq<Fact> {
    FlatMap(events, ArrivalOf(holdsKey))
  }

  function FactOf(entry: Entry): Fact {
    Fact(entry.envelope, entry.receivedAt, entry.decryptable)
  }

  function Facts(entries: seq<Entry>): seq<Fact> {
    seq(|entries|, i requires 0 <= i < |entries| => FactOf(entries[i]))
  }

  // ---- Which envelopes are retained ----

  lemma AddRetains(before: seq<Entry>, entry: Entry, arrived: seq<Fact>)
    requires Facts(before) == LastOf(arrived, BUFFER_CAP)
    ensures Facts(AfterAdd(before, entry)) == LastOf(arrived + [FactOf(entry)], BUFFER_CAP)
  {
    var grown := before + [entry];
    assert Facts(grown) == Facts(before) + [FactOf(entry)];
    assert Facts(LastOf(grown, BUFFER_CAP)) == LastOf(Facts(grown), BUFFER_CAP);
  }

  lemma DispatchRetains(before: seq<Entry>, event: Event, holdsKey: string -> bool, arrived: seq<Fact>)
    requires Facts(before) == LastOf(arrived, BUFFER_CAP)
    ensures Facts(Dispatch(before, event, holdsKey)) == LastOf(arrived + ArrivalOf(holdsKey)(event), BUFFER_CAP)
  {
    match event
    case Received(e, at, _) => AddRetains(before, Entry(e, at, StatusStored, holdsKey(e.to), None), arrived);
    case Acked(ids, _) =>
      assert Facts(AfterAcked(before, ids)) == Facts(before);
      assert arrived + [] == arrived;
    case Expired(id, _) =>
      assert Facts(AfterExpired(before, id)) == Facts(before);
      assert arrived + [] == arrived;
  }

  lemma StepRetains(before: seq<Entry>, step: MonitorStep, holdsKey: string -> bool, events: seq<Event>)
    requires Facts(before) == LastOf(Arrived(events, holdsKey), BUFFER_CAP)
    ensures Facts(StepOn(before, step, holdsKey)) == LastOf(Arrived(events + EventOf()(step), holdsKey), BUFFER_CAP)
  {
    match step
    case OnEvent(event) =>
      FlatMapAppend(events, event, ArrivalOf(holdsKey));
      DispatchRetains(before, event, holdsKey, Arrived(events, holdsKey));
    case OnReveal(id, at) =>
      assert Facts(AfterReveal(before, id, at)) == Facts(before);
      assert events + [] == events;
  }

  /** Reveals and interleaving aside, the list is the last 500 envelopes the
      monitor was told of, in order, each with the time the relay gave and with
      whether its recipient's key is at hand. */
  lemma {:induction false} RetainsLastArrivals(steps: seq<MonitorStep>, holdsKey: string -> bool)
    ensures Facts(Fold(steps, holdsKey)) == LastOf(Arrived(EventsOf(steps), holdsKey), 500)
  {
    if |steps| > 0 {
      var front, last := steps[..|steps| - 1], steps[|steps| - 1];
      RetainsLastArrivals(front, holdsKey);
      StepRetains(Fold(front, holdsKey), last, holdsKey, EventsOf(front));
    }
  }

  // ---- What every entry says ----

  /** What the events after an arrival make of its status: an expiry is for good,
      an ack counts before one. */
  function StatusSince(steps: seq<MonitorStep>, id: string): EntryStatus {
    if |steps| == 0 then StatusStored
    else
      var before, step := StatusSince(steps[..|steps| - 1], id), steps[|steps| - 1];
      if step.OnEvent? && step.event.Expired? && step.event.envelopeId == id then StatusExpired
      else if step.OnEvent? && step.event.Acked? && id in step.event.envelopeIds && before == StatusStored
      then StatusAcked
      else before
  }

  /** The entry is that of the arrival at step n. */
  predicate EntryOf(entry: Entry, steps: seq<MonitorStep>, n: nat, holdsKey: string -> bool) {
    && n < |steps| && steps[n].OnEvent? && steps[n].event.Received?
    && FactOf(entry) == Fact(steps[n].event.envelope, steps[n].event.receivedAt,
                             holdsKey(steps[n].event.envelope.to))
    && entry.status == StatusSince(steps[n + 1..], entry.envelope.envelopeId)
  }

  predicate EntriesOf(entries: seq<Entry>, steps: seq<MonitorStep>, places: seq<nat>, holdsKey: string -> bool) {
    && |places| == |entries|
    && (forall i, j :: 0 <= i < j < |places| ==> places[i] < places[j])
    && forall i :: 0 <= i < |places| ==> EntryOf(entries[i], steps, places[i], holdsKey)
  }

  /** What an event does to the status of an entry that is there. */
  function NextStatus(entry: Entry, step: MonitorStep): EntryStatus {
    if step.OnEvent? && step.event.Expired? && step.event.envelopeId == entry.envelope.envelopeId then StatusExpired
    else if step.OnEvent? && step.event.Acked? && entry.envelope.envelopeId in step.event.envelopeIds
            && entry.status == StatusStored
    then StatusAcked
    else entry.status
  }

  lemma EntryStays(entry: Entry, after: Entry, front: seq<MonitorStep>, step: MonitorStep, n: nat,
                   holdsKey: string -> bool)
    requires EntryOf(entry, front, n, holdsKey)
    requires FactOf(after) == FactOf(entry) && after.status == NextStatus(entry, step)
    ensures EntryOf(after, front + [step], n, holdsKey)
  {
    var more := (front + [step])[n + 1..];
    assert more == front[n + 1..] + [step];
    assert more[..|more| - 1] == front[n + 1..];
  }

  /** How many entries an event pushes out. */
  function Dropped(before: seq<Entry>, step: MonitorStep): nat {
    if step.OnEvent? && step.event.Received? && |before| >= BUFFER_CAP then |before| + 1 - BUFFER_CAP else 0
  }

  /** A step keeps the entries it does not push out, but for their status and what
      it reveals. */
  predicate Keeps(entry: Entry, after: Entry, step: MonitorStep) {
    && FactOf(after) == FactOf(entry) && after.status == NextStatus(entry, step)
    && (step.OnEvent? ==> after.revealedAt == entry.revealedAt)
  }

  /** The entries that an event does not push out. */
  function Kept(before: seq<Entry>, step: MonitorStep): seq<Entry> {
    before[Dropped(before, step)..]
  }

  lemma StepKeepsEntries(before: seq<Entry>, step: MonitorStep, holdsKey: string -> bool, i: nat)
    requires i < |Kept(before, step)|
    ensures i < |StepOn(before, step, holdsKey)|
    ensures Keeps(Kept(before, step)[i], StepOn(before, step, holdsKey)[i], step)
  {
  }

  /** Every retained entry, not only the latest of an id, says what became of its
      envelope since it arrived. */
  lemma {:induction false} EveryEntryTells(steps: seq<MonitorStep>, holdsKey: string -> bool)
    returns (places: seq<nat>)
    ensures EntriesOf(Fold(steps, holdsKey), steps, places, holdsKey)
  {
    if |steps| == 0 {
      places := [];
    } else {
      var front, last := steps[..|steps| - 1], steps[|steps| - 1];
      var before := Fold(front, holdsKey);
      var was := EveryEntryTells(front, holdsKey);
      assert steps == front + [last];
      RetainsLastArrivals(front, holdsKey);
      assert |Facts(before)| <= BUFFER_CAP;
      places := NextPlaces(before, front, last, was, holdsKey);
    }
  }

  lemma NewEntry(before: seq<Entry>, front: seq<MonitorStep>, step: MonitorStep, holdsKey: string -> bool)
    requires |before| <= BUFFER_CAP
    ensures var after, arrives := StepOn(before, step, holdsKey), step.OnEvent? && step.event.Received?;
            && |after| == |Kept(before, step)| + (if arrives then 1 else 0)
            && (arrives ==> EntryOf(after[|after| - 1], front + [step], |front|, holdsKey))
  {
    assert (front + [step])[|front| + 1..] == [];
  }

  lemma SuffixEntries(before: seq<Entry>, front: seq<MonitorStep>, was: seq<nat>, gone: nat, holdsKey: string -> bool)
    requires EntriesOf(before, front, was, holdsKey) && gone <= |before|
    ensures EntriesOf(before[gone..], front, was[gone..], holdsKey)
  {
    forall i | 0 <= i < |before| - gone
      ensures EntryOf(before[gone..][i], front, was[gone..][i], holdsKey)
    {
      assert EntryOf(before[gone + i], front, was[gone + i], holdsKey);
    }
  }

  lemma PlacesGrow(kept: seq<nat>, n: nat)
    requires (forall i, j :: 0 <= i < j < |kept| ==> kept[i] < kept[j]) && forall i :: 0 <= i < |kept| ==> kept[i] < n
    ensures var more := kept + [n]; forall i, j :: 0 <= i < j < |more| ==> more[i] < more[j]
  {
  }

  lemma AllStay(after: seq<Entry>, rest: seq<Entry>, front: seq<MonitorStep>, step: MonitorStep, kept: seq<nat>,
                holdsKey: string -> bool)
    requires EntriesOf(rest, front, kept, holdsKey) && |rest| <= |after|
    requires forall i :: 0 <= i < |rest| ==> Keeps(rest[i], after[i], step)
    ensures EntriesOf(after[..|rest|], front + [step], kept, holdsKey)
    ensures forall i :: 0 <= i < |kept| ==> kept[i] < |front|
  {
    forall i | 0 <= i < |kept|
      ensures kept[i] < |front| && EntryOf(after[..|rest|][i], front + [step], kept[i], holdsKey)
    {
      assert EntryOf(rest[i], front, kept[i], holdsKey) && Keeps(rest[i], after[i], step);
      EntryStays(rest[i], after[i], front, step, kept[i], holdsKey);
    }
  }

  lemma OneMoreEntry(entries: seq<Entry>, entry: Entry, steps: seq<MonitorStep>, kept: seq<nat>, n: nat,
                     holdsKey: string -> bool)
    requires EntriesOf(entries, steps, kept, holdsKey) && EntryOf(entry, steps, n, holdsKey)
    requires forall i :: 0 <= i < |kept| ==> kept[i] < n
    ensures EntriesOf(entries + [entry], steps, kept + [n], holdsKey)
  {
    PlacesGrow(kept, n);
  }

  /** The entries that were kept, and perhaps a new one. */
  lemma Grown(after: seq<Entry>, rest: seq<Entry>, front: seq<MonitorStep>, step: MonitorStep, kept: seq<nat>,
              arrives: bool, holdsKey: string -> bool)
    returns (places: seq<nat>)
    requires EntriesOf(rest, front, kept, holdsKey) && |after| == |rest| + if arrives then 1 else 0
    requires forall i :: 0 <= i < |rest| ==> Keeps(rest[i], after[i], step)
    requires arrives ==> EntryOf(after[|after| - 1], front + [step], |front|, holdsKey)
    ensures EntriesOf(after, front + [step], places, holdsKey)
  {
    AllStay(after, rest, front, step, kept, holdsKey);
    if arrives {
      OneMoreEntry(after[..|rest|], after[|rest|], front + [step], kept, |front|, holdsKey);
      assert after == after[..|rest|] + [after[|rest|]];
      places := kept + [|front|];
    } else {
      assert after == after[..|rest|];
      places := kept;
    }
  }

  lemma NextPlaces(before: seq<Entry>, front: seq<MonitorStep>, step: MonitorStep, was: seq<nat>,
                   holdsKey: string -> bool)
    returns (places: seq<nat>)
    requires EntriesOf(before, front, was, holdsKey) && |before| <= BUFFER_CAP
    ensures EntriesOf(StepOn(before, step, holdsKey), front + [step], places, holdsKey)
  {
    var rest, after := Kept(before, step), StepOn(before, step, holdsKey);
    NewEntry(before, front, step, holdsKey);
    SuffixEntries(before, front, was, Dropped(before, step), holdsKey);
    forall i | 0 <= i < |rest|
      ensures Keeps(rest[i], after[i], step)
    {
      StepKeepsEntries(before, step, holdsKey, i);
    }
    places := Grown(after, rest, front, step, was[Dropped(before, step)..], step.OnEvent? && step.event.Received?,
                    holdsKey);
  }

  // ---- Which entries are revealed ----

  predicate Revealed(steps: seq<MonitorStep>, id: string, at: int) {
    exists i :: 0 <= i < |steps| && steps[i] == OnReveal(id, at)
  }

  predicate RevealsTold(entries: seq<Entry>, steps: seq<MonitorStep>) {
    forall i :: 0 <= i < |entries| && entries[i].revealedAt.Some? ==>
      Revealed(steps, entries[i].envelope.envelopeId, entries[i].revealedAt.value)
  }

  lemma StepReveals(before: seq<Entry>, front: seq<MonitorStep>, step: MonitorStep, holdsKey: string -> bool)
    requires RevealsTold(before, front)
    ensures RevealsTold(StepOn(before, step, holdsKey), front + [step])
  {
    var steps, after := front + [step], StepOn(before, step, holdsKey);
    assert steps[|front|] == step && forall i :: 0 <= i < |front| ==> steps[i] == front[i];
    forall i | 0 <= i < |after| && after[i].revealedAt.Some?
      ensures Revealed(steps, after[i].envelope.envelopeId, after[i].revealedAt.value)
    {
      if step.OnReveal? && i == FirstWith(before, step.envelopeId) {
        assert steps[|front|] == OnReveal(after[i].envelope.envelopeId, after[i].revealedAt.value);
      } else {
        var k := SameEntry(before, step, holdsKey, i);
        var j :| 0 <= j < |front| && front[j] == OnReveal(before[k].envelope.envelopeId, before[k].revealedAt.value);
        assert steps[j] == front[j];
      }
    }
  }

  /** Where an entry was before the step, unless that reveals it. */
  lemma SameEntry(before: seq<Entry>, step: MonitorStep, holdsKey: string -> bool, i: nat) returns (k: nat)
    requires i < |StepOn(before, step, holdsKey)| && StepOn(before, step, holdsKey)[i].revealedAt.Some?
    requires step.OnReveal? ==> i != FirstWith(before, step.envelopeId)
    ensures k < |before|
    ensures before[k].envelope == StepOn(before, step, holdsKey)[i].envelope
    ensures before[k].revealedAt == StepOn(before, step, holdsKey)[i].revealedAt
  {
    k := i + if step.OnEvent? && step.event.Received? && |before| + 1 > BUFFER_CAP
             then |before| + 1 - BUFFER_CAP else 0;
  }

  /** An entry is revealed only by a reveal of its id, at the time of that. */
  lemma {:induction false} RevealedOnlyByReveals(steps: seq<MonitorStep>, holdsKey: string -> bool)
    ensures RevealsTold(Fold(steps, holdsKey), steps)
  {
    if |steps| > 0 {
      var front, last := steps[..|steps| - 1], steps[|steps| - 1];
      RevealedOnlyByReveals(front, holdsKey);
      StepReveals(Fold(front, holdsKey), front, last, holdsKey);
      assert steps == front + [last];
    }
  }

  /** And a reveal marks the first entry with its id. */
  lemma RevealMarks(steps: seq<MonitorStep>, id: string, at: int, holdsKey: string -> bool, k: nat)
    requires k < |Fold(steps, holdsKey)| && Fold(steps, holdsKey)[k].envelope.envelopeId == id
    requires forall i :: 0 <= i < k ==> Fold(steps, holdsKey)[i].envelope.envelopeId != id
    ensures var before, after := Fold(steps, holdsKey), Fold(steps + [OnReveal(id, at)], holdsKey);
            after == before[k := before[k].(revealedAt := Some(at))]
  {
    assert (steps + [OnReveal(id, at)])[..|steps|] == steps;
  }

  // ---- What the latest entry of an id says ----

  function LatestStatus(entries: seq<Entry>, id: string): Option<EntryStatus> {
    if |entries| == 0 then None
    else if entries[|entries| - 1].envelope.envelopeId == id then Some(entries[|entries| - 1].status)
    else LatestStatus(entries[..|entries| - 1], id)
  }

  function StatusAfter(mark: Mark): EntryStatus {
    match mark
    case Arrival => StatusStored
    case AckDrop => StatusAcked
    case ExpiryDrop => StatusExpired
  }

  /** No two arrivals and no two removals in a row: a piece of an alternating
      history. */
  predicate Flips(marks: seq<Mark>) {
    forall i :: 0 < i < |marks| ==> (marks[i].Arrival? <==> !marks[i - 1].Arrival?)
  }

  predicate StatusFits(status: Option<EntryStatus>, marks: seq<Mark>) {
    status.Some? ==> |marks| > 0 && status.value == StatusAfter(marks[|marks| - 1])
  }

  predicate Agrees(entries: seq<Entry>, marks: seq<Mark>, id: string) {
    StatusFits(LatestStatus(entries, id), marks)
  }

  lemma {:induction false} LatestOfSuffix(entries: seq<Entry>, n: nat, id: string)
    requires n <= |entries|
    ensures LatestStatus(entries[n..], id).Some? ==> LatestStatus(entries[n..], id) == LatestStatus(entries, id)
  {
    if n < |entries| {
      var front := entries[..|entries| - 1];
      LatestOfSuffix(front, n, id);
      assert entries[n..][..|entries| - n - 1] == front[n..];
    }
  }

  lemma {:induction false} LatestAfterAcked(entries: seq<Entry>, ids: seq<string>, id: string)
    ensures var was := LatestStatus(entries, id);
            LatestStatus(AfterAcked(entries, ids), id)
            == if was == Some(StatusStored) && id in ids then Some(StatusAcked) else was
  {
    if |entries| > 0 {
      var front := entries[..|entries| - 1];
      LatestAfterAcked(front, ids, id);
      assert AfterAcked(entries, ids)[..|entries| - 1] == AfterAcked(front, ids);
    }
  }

  lemma {:induction false} LatestAfterExpired(entries: seq<Entry>, gone: string, id: string)
    ensures var was := LatestStatus(entries, id);
            LatestStatus(AfterExpired(entries, gone), id)
            == if was.Some? && id == gone then Some(StatusExpired) else was
  {
    if |entries| > 0 {
      var front := entries[..|entries| - 1];
      LatestAfterExpired(front, gone, id);
      assert AfterExpired(entries, gone)[..|entries| - 1] == AfterExpired(front, gone);
    }
  }

  lemma {:induction false} LatestAfterUpdate(entries: seq<Entry>, k: nat, entry: Entry, id: string)
    requires k < |entries| && entry.envelope == entries[k].envelope && entry.status == entries[k].status
    ensures LatestStatus(entries[k := entry], id) == LatestStatus(entries, id)
  {
    var front := entries[..|entries| - 1];
    if k < |front| {
      LatestAfterUpdate(front, k, entry, id);
      assert entries[k := entry][..|entries| - 1] == front[k := entry];
    } else {
      assert entries[k := entry][..|entries| - 1] == front;
    }
  }

  lemma {:induction false} NamingAll(ids: seq<string>, id: string, mark: Mark)
    ensures var r := FlatMap(ids, Naming(id, mark));
            && (r != [] <==> id in ids)
            && (forall i :: 0 <= i < |r| ==> r[i] == mark)
  {
    if |ids| > 0 {
      NamingAll(ids[..|ids| - 1], id, mark);
      assert id in ids <==> id in ids[..|ids| - 1] || id == ids[|ids| - 1];
    }
  }

  lemma ReceivedAgrees(entries: seq<Entry>, entry: Entry, marks: seq<Mark>, id: string)
    requires Agrees(entries, marks, id) && entry.status == StatusStored
    ensures Agrees(AfterAdd(entries, entry), marks + Naming(id, Arrival)(entry.envelope.envelopeId), id)
  {
    var grown := entries + [entry];
    assert grown[..|entries|] == entries;
    assert marks + [] == marks;
    if |grown| > BUFFER_CAP {
      LatestOfSuffix(grown, |grown| - BUFFER_CAP, id);
    }
  }

  lemma LastFlips(marks: seq<Mark>, more: seq<Mark>)
    requires Flips(marks + more) && |marks| > 0 && |more| > 0 && !more[0].Arrival?
    ensures marks[|marks| - 1].Arrival?
  {
    var all := marks + more;
    assert all[|marks|] == more[0] && all[|marks| - 1] == marks[|marks| - 1];
  }

  /** An ack finds the latest entry stored, or does not name its id. */
  lemma AckedFits(was: Option<EntryStatus>, marks: seq<Mark>, more: seq<Mark>)
    requires StatusFits(was, marks) && Flips(marks + more)
    requires forall i :: 0 <= i < |more| ==> more[i] == AckDrop
    ensures StatusFits(if was == Some(StatusStored) && more != [] then Some(StatusAcked) else was, marks + more)
  {
    if more == [] {
      assert marks + more == marks;
    } else {
      if |marks| > 0 {
        LastFlips(marks, more);
      }
      assert (marks + more)[|marks + more| - 1] == more[|more| - 1];
    }
  }

  lemma AckedAgrees(entries: seq<Entry>, ids: seq<string>, marks: seq<Mark>, id: string)
    requires Agrees(entries, marks, id) && Flips(marks + FlatMap(ids, Naming(id, AckDrop)))
    ensures Agrees(AfterAcked(entries, ids), marks + FlatMap(ids, Naming(id, AckDrop)), id)
  {
    LatestAfterAcked(entries, ids, id);
    NamingAll(ids, id, AckDrop);
    AckedFits(LatestStatus(entries, id), marks, FlatMap(ids, Naming(id, AckDrop)));
  }

  lemma ExpiredAgrees(entries: seq<Entry>, gone: string, marks: seq<Mark>, id: string)
    requires Agrees(entries, marks, id)
    ensures Agrees(AfterExpired(entries, gone), marks + Naming(id, ExpiryDrop)(gone), id)
  {
    LatestAfterExpired(entries, gone, id);
    assert marks + [] == marks;
  }

  lemma DispatchAgrees(entries: seq<Entry>, event: Event, holdsKey: string -> bool, marks: seq<Mark>, id: string)
    requires Agrees(entries, marks, id) && Flips(marks + EventMarks(event, id))
    ensures Agrees(Dispatch(entries, event, holdsKey), marks + EventMarks(event, id), id)
  {
    match event
    case Received(e, at, _) => ReceivedAgrees(entries, Entry(e, at, StatusStored, holdsKey(e.to), None), marks, id);
    case Acked(ids, _) => AckedAgrees(entries, ids, marks, id);
    case Expired(gone, _) => ExpiredAgrees(entries, gone, marks, id);
  }

  lemma FlipsPrefix(marks: seq<Mark>, more: seq<Mark>)
    requires Flips(marks + more)
    ensures Flips(marks)
  {
    forall i | 0 < i < |marks|
      ensures marks[i].Arrival? <==> !marks[i - 1].Arrival?
    {
      assert (marks + more)[i] == marks[i] && (marks + more)[i - 1] == marks[i - 1];
    }
  }

  lemma {:induction false} FoldAgrees(steps: seq<MonitorStep>, holdsKey: string -> bool, id: string)
    requires Flips(Marks(EventsOf(steps), id))
    ensures Agrees(Fold(steps, holdsKey), Marks(EventsOf(steps), id), id)
  {
    if |steps| > 0 {
      var front, last := steps[..|steps| - 1], steps[|steps| - 1];
      var before := Fold(front, holdsKey);
      match last
      case OnEvent(event) =>
        FlatMapAppend(EventsOf(front), event, Marker(id));
        FlipsPrefix(Marks(EventsOf(front), id), EventMarks(event, id));
        FoldAgrees(front, holdsKey, id);
        DispatchAgrees(before, event, holdsKey, Marks(EventsOf(front), id), id);
      case OnReveal(revealed, at) =>
        assert EventsOf(steps) == EventsOf(front);
        FoldAgrees(front, holdsKey, id);
        var k := FirstWith(before, revealed);
        if k < |before| {
          LatestAfterUpdate(before, k, before[k].(revealedAt := Some(at)), id);
        }
    }
  }

  // ---- The monitor against the relay ----

  lemma SuffixFlips(a: seq<Mark>, b: seq<Mark>)
    requires Alternates(a + b)
    ensures Flips(b)
  {
    forall i | 0 < i < |b|
      ensures b[i].Arrival? <==> !b[i - 1].Arrival?
    {
      assert (a + b)[|a| + i] == b[i] && (a + b)[|a| + i - 1] == b[i - 1];
    }
  }

  /** Reading a history from some point on. */
  lemma SuffixOfHistory(before: seq<Mark>, seen: seq<Mark>, held: bool)
    requires Tracks(before + seen, held)
    ensures Flips(seen)
    ensures seen != [] ==> seen[|seen| - 1] == (before + seen)[|before + seen| - 1]
    ensures seen != [] ==> (StatusAfter(seen[|seen| - 1]) == StatusStored <==> held)
  {
    SuffixFlips(before, seen);
  }

  lemma HistorySuffix(s: State, joined: nat, id: string)
    requires Conserved(s, id) && joined <= |s.log|
    ensures var seen, all := Marks(s.log[joined..], id), Marks(s.log, id);
            && Flips(seen)
            && (seen != [] ==> all != [] && seen[|seen| - 1] == all[|all| - 1])
            && (seen != [] ==> (StatusAfter(seen[|seen| - 1]) == StatusStored <==> id in s.table))
  {
    assert s.log == s.log[..joined] + s.log[joined..];
    FlatMapConcat(s.log[..joined], s.log[joined..], Marker(id));
    SuffixOfHistory(Marks(s.log[..joined], id), Marks(s.log[joined..], id), id in s.table);
  }

  /** After any relay run, a monitor that subscribed when the log had length
      `joined` and was given the events since then, with reveals in between:
      - holds exactly the last 500 arrivals, in order;
      - the latest entry it holds of an id is 'stored' exactly when the relay
        still holds that id, and otherwise names the kind of its last removal. */
  lemma MonitorMirrorsRelay(c: Config, start: int, run: seq<Step>, joined: nat, steps: seq<MonitorStep>,
                            holdsKey: string -> bool, id: string)
    requires IsRun(c, start, run)
    requires joined <= |Exec(c, start, run).value.log|
    requires EventsOf(steps) == Exec(c, start, run).value.log[joined..]
    ensures var s := Exec(c, start, run).value;
            var entries := Fold(steps, holdsKey);
            && Facts(entries) == LastOf(Arrived(s.log[joined..], holdsKey), BUFFER_CAP)
            && (LatestStatus(entries, id).Some? ==>
                  && (LatestStatus(entries, id).value == StatusStored <==> id in s.table)
                  && Marks(s.log, id) != []
                  && LatestStatus(entries, id).value == StatusAfter(Marks(s.log, id)[|Marks(s.log, id)| - 1]))
  {
    var s := Exec(c, start, run).value;
    EventConservation(c, start, run, id);
    HistorySuffix(s, joined, id);
    FoldAgrees(steps, holdsKey, id);
    RetainsLastArrivals(steps, holdsKey);
  }
}
