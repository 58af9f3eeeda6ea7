/** The monitor's store and its reveal orchestrator as they are: objects that
    call each other back. Sources: packages/monitor/src/store.ts and
    packages/monitor/src/orchestrator.ts. */
module Monitor {
  import opened Basics
  import opened RelayRepo
  import opened RelayEvents
  import opened MonitorFold
  import opened RevealQueue

  class StreamEntry {
    const envelope: Envelope
    const receivedAt: int
    const decryptable: bool
    var status: EntryStatus
    var revealedAt: Option<int>

    constructor (envelope: Envelope, receivedAt: int, decryptable: bool)
      ensures View() == Entry(envelope, receivedAt, StatusStored, decryptable, None)
    {
      this.envelope, this.receivedAt, this.decryptable := envelope, receivedAt, decryptable;
      status, revealedAt := StatusStored, None;
    }

    function View(): Entry
      reads this
    {
      Entry(envelope, receivedAt, status, decryptable, revealedAt)
    }
  }

  datatype StoreSnapshot = StoreSnapshot(entries: seq<StreamEntry>, shown: Option<RevealTarget>, version: nat)

  /** Who is called back: the orchestrator, or something that draws a screen. */
  datatype Subscriber = Revealer | Screen(id: nat)

  datatype QueuedReveal = QueuedReveal(entry: StreamEntry, plaintext: string)

  function ViewOf(entries: seq<StreamEntry>): seq<Entry>
    reads entries
  {
    seq(|entries|, (i: int) requires 0 <= i < |entries| reads entries => entries[i].View())
  }

  function ItemOf(q: QueuedReveal): Queued {
    Queued(q.entry.envelope.envelopeId, q.plaintext)
  }

  function ItemsOf(queue: seq<QueuedReveal>): seq<Queued> {
    seq(|queue|, i requires 0 <= i < |queue| => ItemOf(queue[i]))
  }

  /** The entries after a callback: one more is marked revealed if the callback
      started a reveal. */
  ghost function AfterShow(entries: seq<Entry>, before: Reveals, after: Reveals, now: int): seq<Entry> {
    if |after.started| > |before.started| && after.shown.Some?
    then AfterReveal(entries, after.shown.value.envelopeId, now)
    else entries
  }

  lemma FirstIs(entries: seq<Entry>, id: string, k: nat)
    requires k <= |entries| && forall i :: 0 <= i < k ==> entries[i].envelope.envelopeId != id
    requires k < |entries| ==> entries[k].envelope.envelopeId == id
    ensures k == FirstWith(entries, id)
  {
  }

  class MonitorStore {
    var entries: seq<StreamEntry>
    var shown: Option<RevealTarget>
    var version: nat
    var snapshot: StoreSnapshot
    var subscribers: set<Subscriber>
    /** The subscriber that calls back into the store, once it has started. */
    var orchestrator: Orchestrator?
    /** The snapshot that each screen took when it was last called back. */
    var screens: map<nat, StoreSnapshot>

    ghost predicate Distinct()
      reads this
    {
      && (forall i, j :: 0 <= i < j < |entries| ==> entries[i] != entries[j])
      && (orchestrator != null ==> orchestrator.store == this)
      && (orchestrator != null <==> Revealer in subscribers)
    }

    /** The entries are distinct objects and the cached snapshot is current. */
    ghost predicate Current()
      reads this
    {
      Distinct() && snapshot == StoreSnapshot(entries, shown, version)
    }

    ghost predicate Drawn(those: set<Subscriber>)
      reads this
    {
      forall s :: s in those && s.Screen? ==> s.id in screens && screens[s.id] == snapshot
    }

    /** And every screen has it. */
    ghost predicate Valid()
      reads this
    {
      Current() && Drawn(subscribers)
    }

    ghost function Listeners(): set<object>
      reads this
    {
      if orchestrator == null then {} else {orchestrator}
    }

    /** The state of the reveal queue behind this store. */
    ghost function View(): Reveals
      reads this, Listeners()
    {
      if orchestrator == null then Reveals([], false, shown, [], [])
      else Reveals(ItemsOf(orchestrator.queue), orchestrator.inProgress, shown, orchestrator.started,
                   orchestrator.enqueued)
    }

    ghost function Backlog(): nat
      reads this, Listeners()
    {
      if orchestrator == null then 0 else |orchestrator.queue|
    }

    constructor ()
      ensures Valid() && ViewOf(entries) == [] && View() == NoReveals()
    {
      entries, shown, version := [], None, 0;
      snapshot := StoreSnapshot([], None, 0);
      subscribers, orchestrator, screens := {}, null, map[];
    }

    method Subscribe(listener: Orchestrator)
      requires Valid() && orchestrator == null && listener.store == this
      modifies this`orchestrator, this`subscribers
      ensures Valid() && orchestrator == listener && subscribers == old(subscribers) + {Revealer}
    {
      orchestrator := listener;
      subscribers := subscribers + {Revealer};
    }

    /** A screen takes the snapshot when it is first drawn. */
    method SubscribeScreen(id: nat)
      requires Valid()
      modifies this`subscribers, this`screens
      ensures Valid() && subscribers == old(subscribers) + {Screen(id)}
    {
      subscribers := subscribers + {Screen(id)};
      screens := screens[id := snapshot];
    }

    method UnsubscribeScreen(id: nat)
      requires Valid()
      modifies this`subscribers
      ensures Valid() && subscribers == old(subscribers) - {Screen(id)}
    {
      subscribers := subscribers - {Screen(id)};
    }

    /** Calls every subscriber back, in whatever order. The orchestrator may change
        the store while it is called, which calls everybody back again; in the end
        every screen has the last snapshot. */
    method Bump(now: int)
      requires Distinct()
      modifies this, Listeners(), entries
      ensures Valid() && entries == old(entries) && orchestrator == old(orchestrator)
      ensures subscribers == old(subscribers)
      ensures View() == Notified(old(View()), now)
      ensures ViewOf(entries) == AfterShow(old(ViewOf(entries)), old(View()), View(), now)
      decreases Backlog(), 3
    {
      version := version + 1;
      snapshot := StoreSnapshot(entries, shown, version);
      var todo := subscribers;
      while todo != {}
        invariant todo <= subscribers && Current() && Drawn(subscribers - todo)
        invariant entries == old(entries) && orchestrator == old(orchestrator) && subscribers == old(subscribers)
        invariant Revealer in todo ==> View() == old(View()) && ViewOf(entries) == old(ViewOf(entries))
        invariant Revealer !in todo ==> View() == Notified(old(View()), now)
        invariant Revealer !in todo ==> ViewOf(entries) == AfterShow(old(ViewOf(entries)), old(View()), View(), now)
        decreases todo
      {
        var s :| s in todo;
        todo := todo - {s};
        match s
        case Screen(id) =>
          screens := screens[id := snapshot];
        case Revealer =>
          orchestrator.OnStoreChange(now);
      }
    }

    /** Appends to the list and drops what exceeds the cap. */
    method Append(entry: StreamEntry)
      requires Distinct() && entry !in entries
      modifies this`entries
      ensures Distinct() && entries == LastOf(old(entries) + [entry], BUFFER_CAP)
      ensures ViewOf(entries) == AfterAdd(old(ViewOf(entries)), entry.View())
    {
      var grown := entries + [entry];
      assert forall i :: 0 <= i < |entries| ==> entries[i] in entries;
      assert ViewOf(grown) == ViewOf(entries) + [entry.View()];
      assert ViewOf(LastOf(grown, BUFFER_CAP)) == LastOf(ViewOf(grown), BUFFER_CAP);
      entries := grown;
      if |entries| > BUFFER_CAP {
        entries := entries[|entries| - BUFFER_CAP..];
      }
    }

    method AddEnvelope(envelope: Envelope, receivedAt: int, decryptable: bool, now: int)
      requires Valid() && Settled(View())
      modifies this, Listeners(), entries
      ensures Valid() && orchestrator == old(orchestrator) && View() == old(View())
      ensures subscribers == old(subscribers)
      ensures ViewOf(entries)
              == AfterAdd(old(ViewOf(entries)), Entry(envelope, receivedAt, StatusStored, decryptable, None))
      ensures forall i :: 0 <= i < |entries| ==> entries[i] in old(entries) || fresh(entries[i])
    {
      var entry := new StreamEntry(envelope, receivedAt, decryptable);
      Append(entry);
      assert forall i :: 0 <= i < |entries| ==> entries[i] in old(entries) || entries[i] == entry;
      Bump(now);
    }

    method MarkAcked(envelopeIds: seq<string>, now: int)
      requires Valid() && Settled(View())
      modifies this, Listeners(), entries
      ensures Valid() && orchestrator == old(orchestrator) && View() == old(View()) && entries == old(entries)
      ensures subscribers == old(subscribers)
      ensures ViewOf(entries) == AfterAcked(old(ViewOf(entries)), envelopeIds)
    {
      for i := 0 to |entries|
        invariant unchanged(this) && (orchestrator != null ==> unchanged(orchestrator))
        invariant forall k :: 0 <= k < i ==> entries[k].View() == AfterAcked(old(ViewOf(entries)), envelopeIds)[k]
        invariant forall k :: i <= k < |entries| ==> unchanged(entries[k])
      {
        var entry := entries[i];
        if entry.envelope.envelopeId in envelopeIds && entry.status == StatusStored {
          entry.status := StatusAcked;
        }
      }
      Bump(now);
    }

    method MarkExpired(envelopeId: string, now: int)
      requires Valid() && Settled(View())
      modifies this, Listeners(), entries
      ensures Valid() && orchestrator == old(orchestrator) && View() == old(View()) && entries == old(entries)
      ensures subscribers == old(subscribers)
      ensures ViewOf(entries) == AfterExpired(old(ViewOf(entries)), envelopeId)
    {
      for i := 0 to |entries|
        invariant unchanged(this) && (orchestrator != null ==> unchanged(orchestrator))
        invariant forall k :: 0 <= k < i ==> entries[k].View() == AfterExpired(old(ViewOf(entries)), envelopeId)[k]
        invariant forall k :: i <= k < |entries| ==> unchanged(entries[k])
      {
        var entry := entries[i];
        if entry.envelope.envelopeId == envelopeId {
          entry.status := StatusExpired;
        }
      }
      Bump(now);
    }

    /** The newest entry that can still be revealed and matches; "" matches
        everything, as an absent field does. */
    method FindDecryptableFor(sender: string, recipient: string) returns (found: StreamEntry?)
      requires Valid()
      ensures found != null ==>
                exists i :: 0 <= i < |entries| && entries[i] == found
                  && Revealable(entries[i].View(), sender, recipient)
                  && forall k :: i < k < |entries| ==> !Revealable(entries[k].View(), sender, recipient)
      ensures found == null ==> forall k :: 0 <= k < |entries| ==> !Revealable(entries[k].View(), sender, recipient)
      ensures found != null ==>
                && found.decryptable && found.revealedAt.None?
                && sender in {"", found.envelope.from} && recipient in {"", found.envelope.to}
      ensures forall k :: (&& 0 <= k < |entries| && entries[k].decryptable && entries[k].revealedAt.None?
                           && sender in {"", entries[k].envelope.from} && recipient in {"", entries[k].envelope.to})
                          ==> found != null && exists i :: k <= i < |entries| && entries[i] == found
    {
      var i := |entries|;
      while i > 0
        invariant 0 <= i <= |entries|
        invariant forall k :: i <= k < |entries| ==> !Revealable(entries[k].View(), sender, recipient)
      {
        i := i - 1;
        var entry := entries[i];
        if !entry.decryptable || entry.revealedAt.Some? {
          continue;
        }
        if sender != "" && entry.envelope.from != sender {
          continue;
        }
        if recipient != "" && entry.envelope.to != recipient {
          continue;
        }
        return entry;
      }
      return null;
    }

    method StartReveal(target: RevealTarget)
      requires Current() && orchestrator != null && orchestrator.inProgress
      modifies this, Listeners(), entries
      ensures Valid() && entries == old(entries) && orchestrator == old(orchestrator)
      ensures subscribers == old(subscribers)
      ensures View() == old(View()).(shown := Some(target))
      ensures ViewOf(entries) == AfterReveal(old(ViewOf(entries)), target.envelopeId, target.startedAt)
      decreases Backlog(), 4
    {
      var i := 0;
      while i < |entries| && entries[i].envelope.envelopeId != target.envelopeId
        invariant i <= |entries|
        invariant forall k :: 0 <= k < i ==> entries[k].envelope.envelopeId != target.envelopeId
      {
        i := i + 1;
      }
      FirstIs(ViewOf(entries), target.envelopeId, i);
      if i < |entries| {
        entries[i].revealedAt := Some(target.startedAt);
      }
      shown := Some(target);
      assert ViewOf(entries) == AfterReveal(old(ViewOf(entries)), target.envelopeId, target.startedAt);
      Bump(target.startedAt);
    }

    method EndReveal(now: int)
      requires Valid() && Settled(View())
      modifies this, Listeners(), entries
      ensures Valid() && entries == old(entries) && orchestrator == old(orchestrator)
      ensures subscribers == old(subscribers)
      ensures View() == AfterRevealStep(old(View()), Ended(now)) && Settled(View())
      ensures ViewOf(entries) == AfterShow(old(ViewOf(entries)), old(View()), View(), now)
    {
      SettledStays(View(), Ended(now));
      shown := None;
      Bump(now);
    }
  }

  predicate Revealable(e: Entry, sender: string, recipient: string) {
    && e.decryptable && e.revealedAt.None?
    && (sender == "" || e.envelope.from == sender)
    && (recipient == "" || e.envelope.to == recipient)
  }

  class Orchestrator {
    const store: MonitorStore
    var queue: seq<QueuedReveal>
    var inProgress: bool
    ghost var started: seq<Queued>
    ghost var enqueued: seq<Queued>

    constructor (store: MonitorStore)
      ensures this.store == store && queue == [] && !inProgress && started == [] && enqueued == []
    {
      this.store := store;
      queue, inProgress, started, enqueued := [], false, [], [];
    }

    method OnStoreChange(now: int)
      requires store.Current() && store.orchestrator == this
      modifies this, store, store.entries
      ensures store.Current() && store.orchestrator == this && store.entries == old(store.entries)
      ensures store.subscribers == old(store.subscribers)
      ensures store.Valid() || (store.screens == old(store.screens) && store.snapshot == old(store.snapshot))
      ensures store.View() == Notified(old(store.View()), now)
      ensures ViewOf(store.entries) == AfterShow(old(ViewOf(store.entries)), old(store.View()), store.View(), now)
      decreases |queue|, 2
    {
      var snap := store.snapshot;
      if snap.shown.None? && inProgress {
        inProgress := false;
        PopQueue(now);
      }
    }

    method PopQueue(now: int)
      requires store.Current() && store.orchestrator == this
      modifies this, store, store.entries
      ensures store.Current() && store.orchestrator == this && store.entries == old(store.entries)
      ensures store.subscribers == old(store.subscribers)
      ensures store.Valid() || (store.screens == old(store.screens) && store.snapshot == old(store.snapshot))
      ensures store.View() == Popped(old(store.View()), now)
      ensures ViewOf(store.entries) == AfterShow(old(ViewOf(store.entries)), old(store.View()), store.View(), now)
      decreases |queue|, 1
    {
      if inProgress {
        return;
      }
      if |queue| == 0 {
        return;
      }
      var next := queue[0];
      queue := queue[1..];
      started := started + [ItemOf(next)];
      assert ItemsOf(queue) == ItemsOf(old(queue))[1..];
      inProgress := true;
      store.StartReveal(RevealTarget(next.entry.envelope.envelopeId, next.plaintext, now));
    }

    /** pickAndQueue after its await: `plaintext` is what tryDecrypt returned. */
    method Queue(target: StreamEntry, plaintext: Option<string>, now: int)
      requires store.Valid() && store.orchestrator == this && Settled(store.View())
      modifies this, store, store.entries
      ensures store.Valid() && store.orchestrator == this && store.entries == old(store.entries)
      ensures store.subscribers == old(store.subscribers) && Settled(store.View())
      ensures store.View()
              == if plaintext.None? then old(store.View())
                 else AfterRevealStep(old(store.View()),
                                      Decrypted(Queued(target.envelope.envelopeId, plaintext.value), now))
      ensures ViewOf(store.entries) == AfterShow(old(ViewOf(store.entries)), old(store.View()), store.View(), now)
    {
      if plaintext.None? || plaintext.value == "" {
        return;
      }
      SettledStays(store.View(), Decrypted(Queued(target.envelope.envelopeId, plaintext.value), now));
      var item := QueuedReveal(target, plaintext.value);
      queue := queue + [item];
      enqueued := enqueued + [ItemOf(item)];
      assert ItemsOf(queue) == ItemsOf(old(queue)) + [ItemOf(item)];
      PopQueue(now);
    }
  }

  /** The onEvent callback of App.tsx. */
  method OnRelayEvent(store: MonitorStore, event: Event, holdsKey: string -> bool, now: int)
    requires store.Valid() && Settled(store.View())
    modifies store, store.Listeners(), store.entries
    ensures store.Valid() && store.orchestrator == old(store.orchestrator) && store.View() == old(store.View())
    ensures store.subscribers == old(store.subscribers)
    ensures ViewOf(store.entries) == Dispatch(old(ViewOf(store.entries)), event, holdsKey)
    ensures forall i :: 0 <= i < |store.entries| ==> store.entries[i] in old(store.entries) || fresh(store.entries[i])
  {
    match event
    case Received(envelope, receivedAt, _) =>
      store.AddEnvelope(envelope, receivedAt, holdsKey(envelope.to), now);
    case Acked(ids, _) =>
      store.MarkAcked(ids, now);
    case Expired(id, _) =>
      store.MarkExpired(id, now);
  }
}
