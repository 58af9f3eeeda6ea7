/** From the relay's table to the monitor's screen: the run, the event log, the
    printed stream, any cuts of it, the parser and the store, together. */
module EndToEnd {
  import opened Basics
  import opened RelayEvents
  import opened RelayMachine
  import opened RelayRuns
  import opened MonitorFold
  import opened Sse
  import Monitor
  import RevealQueue

  /** What MonitorMirrorsRelay says of a monitor that was given these steps. */
  ghost predicate Mirrors(s: State, joined: nat, entries: seq<Entry>, holdsKey: string -> bool)
    requires joined <= |s.log|
  {
    && Facts(entries) == LastOf(Arrived(s.log[joined..], holdsKey), BUFFER_CAP)
    && forall id :: LatestStatus(entries, id).Some? ==>
         && (LatestStatus(entries, id).value == StatusStored <==> id in s.table)
         && Marks(s.log, id) != []
         && LatestStatus(entries, id).value == StatusAfter(Marks(s.log, id)[|Marks(s.log, id)| - 1])
  }

  lemma MirrorsAfter(c: Config, start: int, run: seq<Step>, joined: nat, steps: seq<MonitorStep>,
                     holdsKey: string -> bool)
    requires IsRun(c, start, run) && joined <= |Exec(c, start, run).value.log|
    requires EventsOf(steps) == Exec(c, start, run).value.log[joined..]
    ensures Mirrors(Exec(c, start, run).value, joined, Fold(steps, holdsKey), holdsKey)
  {
    MonitorMirrorsRelay(c, start, run, joined, steps, holdsKey, "");
    forall id: string
      ensures LatestStatus(Fold(steps, holdsKey), id).Some? ==>
                && (LatestStatus(Fold(steps, holdsKey), id).value == StatusStored
                    <==> id in Exec(c, start, run).value.table)
                && Marks(Exec(c, start, run).value.log, id) != []
                && LatestStatus(Fold(steps, holdsKey), id).value
                   == StatusAfter(
                        Marks(Exec(c, start, run).value.log, id)[|Marks(Exec(c, start, run).value.log, id)| - 1])
    {
      MonitorMirrorsRelay(c, start, run, joined, steps, holdsKey, id);
    }
  }

  /** The relay writes to a subscriber the events since it joined, with comments
      anywhere in between, and the network cuts the text anywhere, also inside
      the frame that comes next. The reader is left with the unfinished part of
      that frame, and a monitor that is given what the reader delivered, with
      reveals in between, shows a screen that agrees with the relay's table. */
  method ScreenMirrorsTable(reader: SseReader<Event>, chunks: seq<string>,
                            ghost c: Config, ghost start: int, ghost run: seq<Step>, ghost joined: nat,
                            ghost items: seq<Item<Event>>, ghost next: Item<Event>, ghost part: string)
    requires reader.Valid() && reader.buffer == "" && reader.delivered == [] && Faithful(reader.codec)
    requires IsRun(c, start, run) && joined <= |Exec(c, start, run).value.log|
    requires WellFormed(items) && WellFormed([next]) && part < Body(reader.codec, next) + "\n\n"
    requires EventsOfItems(items) == Exec(c, start, run).value.log[joined..]
    requires Flatten(chunks) == Print(reader.codec, items) + part
    modifies reader
    ensures reader.buffer == part
    ensures forall steps, holdsKey | EventsOf(steps) == reader.delivered ::
              Mirrors(Exec(c, start, run).value, joined, Fold(steps, holdsKey), holdsKey)
  {
    StreamRoundTrip(reader.codec, items, next, part);
    assert reader.buffer + Flatten(chunks) == Flatten(chunks);
    reader.Read(chunks);
    forall steps, holdsKey | EventsOf(steps) == reader.delivered
      ensures Mirrors(Exec(c, start, run).value, joined, Fold(steps, holdsKey), holdsKey)
    {
      MirrorsAfter(c, start, run, joined, steps, holdsKey);
    }
  }

  // ---- With the store itself ----

  /** The steps made of events, with no reveal in between. */
  function AsSteps(events: seq<Event>): seq<MonitorStep> {
    seq(|events|, i requires 0 <= i < |events| => OnEvent(events[i]))
  }

  lemma {:induction false} AsStepsEvents(events: seq<Event>)
    ensures EventsOf(AsSteps(events)) == events
  {
    if |events| > 0 {
      var front := events[..|events| - 1];
      AsStepsEvents(front);
      assert AsSteps(events)[..|events| - 1] == AsSteps(front);
    }
  }

  lemma FoldNext(events: seq<Event>, n: nat, holdsKey: string -> bool)
    requires n < |events|
    ensures Fold(AsSteps(events[..n + 1]), holdsKey)
            == Dispatch(Fold(AsSteps(events[..n]), holdsKey), events[n], holdsKey)
  {
    assert AsSteps(events[..n + 1])[..n] == AsSteps(events[..n]);
  }

  /** The store is given the events one by one. */
  method Show(store: Monitor.MonitorStore, events: seq<Event>, holdsKey: string -> bool, now: int)
    requires store.Valid() && store.entries == [] && RevealQueue.Settled(store.View())
    modifies store, store.Listeners()
    ensures store.Valid() && store.View() == old(store.View())
    ensures Monitor.ViewOf(store.entries) == Fold(AsSteps(events), holdsKey)
  {
    assert AsSteps(events[..0]) == [];
    for n := 0 to |events|
      invariant store.Valid() && store.View() == old(store.View()) && store.orchestrator == old(store.orchestrator)
      invariant Monitor.ViewOf(store.entries) == Fold(AsSteps(events[..n]), holdsKey)
      invariant fresh(store.entries)
    {
      FoldNext(events, n, holdsKey);
      Monitor.OnRelayEvent(store, events[n], holdsKey, now);
    }
    assert events[..|events|] == events;
  }

  /** All of it: text in, screen out. */
  method Watch(reader: SseReader<Event>, store: Monitor.MonitorStore, chunks: seq<string>, holdsKey: string -> bool,
               now: int, ghost c: Config, ghost start: int, ghost run: seq<Step>, ghost joined: nat,
               ghost items: seq<Item<Event>>, ghost next: Item<Event>, ghost part: string)
    requires reader.Valid() && reader.buffer == "" && reader.delivered == [] && Faithful(reader.codec)
    requires store.Valid() && store.entries == [] && RevealQueue.Settled(store.View())
    requires IsRun(c, start, run) && joined <= |Exec(c, start, run).value.log|
    requires WellFormed(items) && WellFormed([next]) && part < Body(reader.codec, next) + "\n\n"
    requires EventsOfItems(items) == Exec(c, start, run).value.log[joined..]
    requires Flatten(chunks) == Print(reader.codec, items) + part
    modifies reader, store, store.Listeners()
    ensures Mirrors(Exec(c, start, run).value, joined, Monitor.ViewOf(store.entries), holdsKey)
  {
    ScreenMirrorsTable(reader, chunks, c, start, run, joined, items, next, part);
    AsStepsEvents(reader.delivered);
    Show(store, reader.delivered, holdsKey, now);
  }
}
