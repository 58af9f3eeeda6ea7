# SCUT: a verified model

SCUT lets agents with an on-chain identity exchange encrypted envelopes through
untrusted relays. This project models the parts of the system that have to agree
with each other and proves, in Dafny, what holds along every run of them:

- the **relay**: push, pickup, ack, eviction, the nonce table and the event bus,
  as a step machine whose handlers interleave at their awaits;
- the **monitor**: the event stream printed by the relay, cut into chunks by the
  network, parsed back and folded into a capped list, and the reveal queue driven
  by callbacks that re-enter each other;
- the **key caches** between the registry and a signature check;
- the **client** over several relays, composed with as many relay runs;
- the **wire formats**: the `SCUT-Signature` header, the signed challenges,
  `scut://` URIs, canonical JSON and the envelope size arithmetic;
- the **registration service** against the ERC-721 contract, as a saga whose
  database has to track the chain.

`dafny verify dfyconfig.toml` checks everything.

## How it is built

Code that works by changing things is a class here, with the fields of the
original and methods proved against functions on values; code made of
expressions is functions. A handler is split where the original awaits: what runs
between two awaits is one method, and one step of a machine. The methods of the
relay, of the registration service, of the store, of the orchestrator and of the
way to a key ensure that the object's abstract state moves by exactly that step
(`RelayMachine`, `RegisterMachine`, `RevealQueue`, `Caches`) and that the answer
is the step's answer. The steps are held against what they are
for by theorems that do not speak of them: what a handler does in the end is traced
back to the request that started it (`RelayRequests`, `RegisterRequests`), and the
formats to readers written after their standards (`JsonReader`, `EnvelopeReader`).

The theorems are about all runs of the machines. A run is a
sequence of steps, each enabled where it stands, so a statement about every run
covers every interleaving, every outcome of an await, and every answer the
network or the database may give in an unspecified order.

| files | content |
|---|---|
| `Basics`, `Strings` | sequences, sets, the JavaScript string operations |
| `RelayRepo`, `RelayEvents`, `RelayServer` | tables, bus and handlers as classes |
| `RelayMachine`, `RelayRequests`, `RelayRuns`, `NonceReplay` | the relay as steps; every handler against its request; conservation, first writer wins, retention, replay |
| `Sse`, `MonitorFold`, `Monitor`, `RevealQueue`, `EndToEnd` | stream, store, reveals, and the whole path from table to screen |
| `Caches`, `Resolver`, `KeyLookup` | staleness of signing keys, canonical answers, and the caches as classes |
| `Client`, `Delivery` | send, receive, ack; N relays |
| `AuthHeader`, `ScutUri`, `JsonText`, `EnvelopeSize` | wire formats and sizes |
| `JsonReader`, `EnvelopeReader` | the formats read back, and what a signature on an envelope binds |
| `Contract`, `RegisterDb`, `RegisterServer` | contract, database and handlers as classes |
| `RegisterMachine`, `RegisterRequests`, `RegisterRuns`, `RegisterNames`, `KeySuccession`, `ChainAgreement`, `LandingOrder` | the service as steps; every transaction and answer against a signed request; caps, names, custody, transfers; keys in the database, and on the chain; a schedule that keeps the two in agreement |
| `Reentrancy` | receivers that call the contract back |
| `RegisterWitness`, `DocCodec` | the runs that show the bounds are tight and the conditions needed |

## Where code and documentation part, and what was found

- **Nonce window.** Section 6.2 of the protocol specification asks for a nonce cache that covers the
  clock-skew window. That is not enough: a header can be accepted twice unless
  the window covers twice the skew plus the time a handler spends between its
  freshness check and its nonce claim (`NonceReplay.ReplayFreeIff`, exact). With
  the shipped defaults (both 300 s) and handlers that claim at once, the headers
  that can be replayed are exactly those whose timestamp was ahead of the
  relay's clock (`NonceReplay.ShippedWindow`).
- **Fallback.** The specification lets a sender go on to the next relay when one
  cannot be reached. `ScutClient.send` aborts on a fetch that throws
  (`packages/core/src/client.ts:96-100`); only HTTP answers fall through. The
  model follows the code (`Client.Send`).
- **Envelope size.** The size that `buildEnvelope` compares with its limit is one
  byte more than what is sent, so it refuses an envelope of exactly the relay's
  body limit (`EnvelopeSize.SizeIsOneMore`, `EnvelopeSize.BuiltFits`).
- **Daily cap.** The cap is checked before the mint and counted after it, so k
  concurrent registrations can pass it by k - 1, and for every cap and k some
  run does (`RegisterRuns.CapHolds`, `RegisterWitness.CapReached`). The same goes
  for a display name, which k concurrent registrations can take k times in a day
  (`RegisterNames.NameLimitHolds`, `RegisterWitness.NameLimitReached`).
- **Key succession.** An update is checked against the key that was in the
  database when its handler started. If no other key comes into force between
  that check and the acceptance, what is accepted is signed with the key in force
  (`KeySuccession.SuccessionIf`); and exactly then, provided that a signature is
  good under one key only (`KeySuccession.SuccessionIff`). Keys are decoded
  leniently, so one key may be spelled with its padding or without; spellings do
  not count as other keys. Two overlapping updates can break the succession
  (`RegisterWitness.OverlapBreaksSuccession`).
- **Database and chain.** The database key is the one in the on-chain document
  exactly when the last document to land carries no key or the last key to be
  accepted, and the wallet still owns the token (`ChainAgreement.AgreementIff`).
  Three kinds of run in which it fails: a handler fails after its transaction landed
  (`RegisterWitness.LostReceiptBreaksAgreement`); it gives up while its
  transaction is pending, which lands later
  (`RegisterWitness.LateLandingBreaksAgreement`); or, with nothing failing at all, two
  updates land in one order and their receipts arrive in the other
  (`RegisterWitness.OutOfOrderBreaksAgreement`). Updates that are accepted in the
  order in which they land, none of them given up, do no harm
  (`LandingOrder.DatabaseAgreesWithChain`), and the next update that goes through
  repairs what was broken (`ChainAgreement.UpdateRepairs`).
- **Reentrant mints.** The contract writes the URI of a new token after its
  receiver has been called, so that the receiver finds a token with no URI, and an
  update it makes then is written over. What such calls leave behind is what some
  plain calls leave (`Reentrancy.ReentrantIsSequential`).
- **Daily counter.** A registration reads the clock for its row and again for the
  counter. One that is caught between the two by midnight is counted for the next
  day (`RegisterRuns.CountsAreRegistrations`).
- **Expired entries.** `markExpired` overwrites every entry with the id, acked
  ones too, so only the latest entry of an id agrees with the relay
  (`MonitorFold.MonitorMirrorsRelay` is about that one).

## Reading the statements

- Times are milliseconds on the relay and the caches, seconds in the registration
  service. The clock each step reads is part of the step; where a theorem needs
  clocks that do not run backwards it says so.
- `RelayMachine.Init` and `RegisterMachine.Init` start on empty tables and a
  contract just deployed.
- Signature checks and decryption appear through their outcome: a step of its own
  (`AuthFail`), a function that is not looked into (`open`, `signsDoc`,
  `signsText`), or the lengths of what they produce (`EnvelopeSize.Sealed`).
  `Delivery.SignaturesBind` and `KeySuccession.OneKeyEach` state what is asked of
  signatures where a statement rests on it.
- The contract inherits an ERC-721 implementation that is not among the
  repository's files; it is modelled as the standard (EIP-721) has it.
- The text codecs of JSON events and data: URIs are parameters that print without
  line breaks or are never empty, and read back what they printed
  (`Sse.Faithful`, `RegisterMachine.ValidEnv`).

## Model

| member | source | states |
|---|---|---|
| `RelayRepo.EnvelopeRepo.TryStore` | packages/relay/src/repo.ts:21-51 | stores a new id, reports a duplicate for the same signature and a conflict for another, and changes the table only in the first case |
| `RelayRepo.EnvelopeRepo.ForRecipientSince` | packages/relay/src/repo.ts:53-63 | returns every row of the recipient received at or after `since`, each once, oldest first, and nothing else |
| `RelayRepo.EnvelopeRepo.AckForRecipient` | packages/relay/src/repo.ts:65-86 | reports and deletes exactly the named rows of that recipient, whatever duplicates or foreign ids are named |
| `RelayRepo.EnvelopeRepo.EvictExpired` | packages/relay/src/repo.ts:88-95 | reports and deletes exactly the rows whose expiry is not after the given time |
| `RelayRepo.NonceRepo.TryClaim` | packages/relay/src/repo.ts:104-116 | purges what is older than the window, then succeeds exactly when the nonce is not left, whoever used it |
| `RelayRepo.ListingInsert` | packages/relay/src/repo.ts:53-63 | putting one more row in its place keeps a listing complete, free of repeats and in order of time |
| `RelayEvents.RelayEventBus.Publish` | packages/relay/src/events.ts:25-40 | every live subscriber has been given exactly what was published since it joined, in order |
| `RelayEvents.RelayEventBus.Subscribe` | packages/relay/src/events.ts:36-39 | a new subscriber starts at the end of what was published and disturbs no other |
| `RelayEvents.RelayEventBus.Unsubscribe` | packages/relay/src/events.ts:36-39 | removes that subscriber only |
| `RelayServer.Relay.PushBegin` | packages/relay/src/routes/push.ts:27-43 | up to its first await the push handler is the step PushStart |
| `RelayServer.Relay.PushFinish` | packages/relay/src/routes/push.ts:59-99 | from its last await the push handler is the step PushCommit: table, event and answer |
| `RelayServer.Relay.PickupBegin` | packages/relay/src/routes/pickup.ts:29-50 | the checks before the key lookup with their answers, a missing or malformed header among them |
| `RelayServer.Relay.PickupFinish` | packages/relay/src/routes/pickup.ts:59-70 | nonce claim, then the since parameter, then the filtered read |
| `RelayServer.Relay.AckBegin` | packages/relay/src/routes/ack.ts:31-50 | the checks before the key lookup: a header that is missing, malformed or stale answers 401 |
| `RelayServer.Relay.AckFinish` | packages/relay/src/routes/ack.ts:59-74 | nonce claim, delete, one event when something was dropped |
| `RelayServer.Relay.Reject` | packages/relay/src/routes/push.ts:38-57 | a failed lookup or signature check answers 401 and changes no table |
| `RelayServer.Relay.RunEviction` | packages/relay/src/eviction.ts:14-25 | deletes the expired rows and publishes one expiry event for each |
| `RelayRequests.AdmittedIff` | packages/relay/src/auth.ts:41-53 | a request waits for its key lookup if and only if its timestamp is within the skew, behind or ahead, and, for a pickup, its header names the agent asked for; otherwise it is answered at once with 400 or 401 |
| `RelayRequests.EndWasAsked` | packages/relay/src/routes/push.ts:31-36 | in every run, what a handler ends with is what the last admitted request with its number asked, and nothing has ended that before: the pushed envelope; agent, nonce, timestamp and since of a pickup; agent, nonce, timestamp and all ids of an ack |
| `RelayRequests.AskedWaits` | packages/relay/src/routes/push.ts:27-57 | and an admitted request stays what it asked until it is ended |
| `RelayRequests.PushOutcome` | packages/relay/src/routes/push.ts:59-99 | what becomes of a pushed envelope: a row under its id for its recipient, from its sender, until the earlier of the two ends, with one event that says so, or the answer that its signature calls for and no change |
| `RelayRequests.PickupOutcome` | packages/relay/src/routes/pickup.ts:59-70 | a pickup whose nonce is claimed answers 400 if and only if its since parameter is bad, and rows otherwise; it changes no row |
| `RelayRequests.AckOutcome` | packages/relay/src/routes/ack.ts:59-74 | an ack is refused and drops nothing, or told what it dropped |
| `RelayRequests.RejectOutcome` | packages/relay/src/routes/push.ts:38-57 | a failed lookup or signature answers 401 and leaves no trace |
| `RelayRequests.RefusedIff` | packages/relay/src/repo.ts:104-116 | with clocks that run forward: a pickup or an ack that verifies is refused if and only if its nonce was accepted within the window, from whichever agent |
| `RelayRequests.AnyRequestStarts` | packages/relay/src/routes/pickup.ts:29-50 | any request with the fields its schema or header asks for can be made in any state |
| `RelayRequests.AnythingEnds` | packages/relay/src/routes/pickup.ts:54-70 | and any handler can be ended in any state, with and without a valid signature |
| `RelayRuns.EventConservation` | packages/relay/src/routes/push.ts:64-93 | along every run the events of an id alternate arrival and removal, and arrivals minus removals is 1 exactly while the relay holds the id |
| `RelayRuns.StepMarks` | packages/relay/src/routes/ack.ts:63-72 | a step adds to the history of an id at most the one mark that its change of the table calls for, even when an ack names an id twice |
| `RelayRuns.EventsTellTheTruth` | packages/relay/src/routes/push.ts:85-93 | every event of every run tells what has just happened: the row stored and until when, ids held for the acking agent and dropped, a row past its expiry and whose it was |
| `RelayRuns.RunSound` | packages/relay/src/routes/push.ts:59-74 | in every reachable table each column agrees with the envelope in the payload, and the expiry is the earlier of the end the sender and the end the relay sets |
| `RelayRuns.RowStep` | packages/relay/src/repo.ts:21-95 | the only ways a row can appear or disappear in one step |
| `RelayRuns.RowIsFixed` | packages/relay/src/repo.ts:21-51 | while an id is held its row never changes |
| `RelayRuns.FirstWriterWins` | packages/relay/src/routes/push.ts:59-99 | after the push that stores an id, every later push of it is told the original time or a conflict, with no event, no change and no longer expiry (section 6.1 of the protocol specification) |
| `RelayRuns.OneWinnerPerStay` | packages/relay/src/routes/push.ts:85-99 | the number of "stored" answers for an id equals its arrivals, so exactly one push wins between two removals |
| `RelayRuns.RetentionBound` | packages/relay/src/routes/push.ts:59-61 | rows expire after they arrive and within maxTtl, pickup serves nothing a tick interval past its expiry, and a tick removes exactly the expired rows |
| `NonceReplay.ReplayOnlyAfterWindow` | packages/relay/src/repo.ts:104-116 | in every timely run a header is accepted again only after its first claim left the window and no later than ts + skew + delay |
| `NonceReplay.ReplayWitness` | packages/relay/src/auth.ts:41-53 | for every smaller window there is a run that accepts a header twice |
| `NonceReplay.ReplayFreeIff` | packages/relay/src/routes/pickup.ts:40-61 | no interleaving accepts a header twice if and only if window >= 2 * skew + delay |
| `NonceReplay.HeaderReplayIff` | packages/relay/src/routes/ack.ts:40-61 | with no delay, a header just accepted can be accepted again in some continuation if and only if claim time + window < ts + skew |
| `NonceReplay.ShippedWindow` | packages/relay/src/config.ts:27-28 | with window = skew that is exactly when its timestamp was ahead of the relay clock |
| `MonitorFold.RetainsLastArrivals` | packages/monitor/src/store.ts:30-44 | the monitor retains exactly the last 500 arrivals it saw, in order, each with the time the relay gave and whether its recipient's key is held |
| `MonitorFold.FoldAgrees` | packages/monitor/src/store.ts:46-64 | the latest retained entry of an id carries the status of its last event |
| `MonitorFold.EveryEntryTells` | packages/monitor/src/store.ts:46-64 | every retained entry, not only the latest of an id, has the status that the events since its arrival call for |
| `MonitorFold.StepKeepsEntries` | packages/monitor/src/store.ts:30-64 | an event changes nothing of a retained entry but its status |
| `MonitorFold.RevealedOnlyByReveals` | packages/monitor/src/store.ts:81-86 | an entry is revealed only by a reveal of its id, at the time of that |
| `MonitorFold.RevealMarks` | packages/monitor/src/store.ts:81-86 | and a reveal marks the first entry with its id alone |
| `MonitorFold.MonitorMirrorsRelay` | packages/monitor/src/App.tsx:33-45 | for a monitor that joined at any point of any run, the latest retained entry of an id is stored exactly while the relay holds it, and otherwise names the kind of its last removal |
| `Monitor.MonitorStore.AddEnvelope` | packages/monitor/src/store.ts:30-44 | appends, drops what exceeds the cap, notifies; the reveal state is not disturbed |
| `Monitor.MonitorStore.MarkAcked` | packages/monitor/src/store.ts:46-55 | acks exactly the stored entries with a named id |
| `Monitor.MonitorStore.MarkExpired` | packages/monitor/src/store.ts:57-64 | expires every entry with the id, acked ones too |
| `Monitor.MonitorStore.FindDecryptableFor` | packages/monitor/src/store.ts:66-75 | the newest entry that can be decrypted, was not revealed and has the sender and recipient asked for, if any; none when there is none |
| `Monitor.MonitorStore.StartReveal` | packages/monitor/src/store.ts:81-86 | marks the first entry with the id, shows the target, notifies |
| `Monitor.MonitorStore.EndReveal` | packages/monitor/src/store.ts:88-91 | clears the screen, and through the call back shows the next queued reveal |
| `Monitor.MonitorStore.Bump` | packages/monitor/src/store.ts:93-101 | rebuilds the snapshot and calls every subscriber back, in whatever order; the nested calls terminate, and in the end every screen has the last snapshot |
| `Monitor.MonitorStore.Subscribe` | packages/monitor/src/store.ts:23-26 | the orchestrator joins the subscribers |
| `Monitor.MonitorStore.SubscribeScreen` | packages/monitor/src/App.tsx:21-25 | a screen joins the subscribers with the present snapshot |
| `Monitor.MonitorStore.UnsubscribeScreen` | packages/monitor/src/store.ts:23-26 | that screen only is called back no more |
| `Monitor.Orchestrator.OnStoreChange` | packages/monitor/src/orchestrator.ts:80-86 | reacts to an ended reveal and to nothing else |
| `Monitor.Orchestrator.PopQueue` | packages/monitor/src/orchestrator.ts:88-98 | shows the head of the queue if nothing is shown |
| `Monitor.Orchestrator.Queue` | packages/monitor/src/orchestrator.ts:71-78 | queues a decrypted message; an empty plaintext is not queued |
| `Monitor.OnRelayEvent` | packages/monitor/src/App.tsx:33-45 | one event changes the entry list as the fold says |
| `RevealQueue.RevealsSerialised` | packages/monitor/src/orchestrator.ts:71-98 | under any interleaving the flag equals "a reveal is shown", a nonempty queue implies one is shown, and started reveals followed by the queue equal the enqueued history |
| `RevealQueue.EverythingIsQueued` | packages/monitor/src/orchestrator.ts:71-78 | the enqueued history is what was decrypted, in order, but for empty messages |
| `RevealQueue.ShownSince` | packages/monitor/src/orchestrator.ts:88-98 | what is shown carries the time of the step that showed it |
| `RevealQueue.SettledStays` | packages/monitor/src/orchestrator.ts:71-98 | every step keeps the reveals serialised, which the methods of the store and the orchestrator rest on |
| `RevealQueue.QueueDrains` | packages/monitor/src/orchestrator.ts:80-98 | ending one reveal after another shows everything that was queued, once per queueing and in order, and leaves the screen empty |
| `Sse.CutAnywhere` | packages/monitor/src/sse.ts:51-55 | cutting a text in two and keeping the tail gives the same frames and the same tail |
| `Sse.FirstData` | packages/monitor/src/sse.ts:56-64 | of a frame the first data line counts, behind any comments |
| `Sse.SseReader.OnFrame` | packages/monitor/src/sse.ts:56-72 | delivers the event of the frame's first data line, if it is a known one |
| `Sse.SseReader.Feed` | packages/monitor/src/sse.ts:51-73 | one chunk: delivers the events of the frames it completes and keeps the unfinished tail |
| `Sse.SseReader.Read` | packages/monitor/src/sse.ts:46-74 | for any chunks: what is delivered and what is left depend on the text alone |
| `Sse.EventResponse.WriteEvent` | packages/relay/src/routes/events.ts:37-40 | the two writes append one printed frame |
| `Sse.FrameLines` | packages/relay/src/routes/events.ts:37-46 | a frame is a line with the kind and a line with the event, a comment is one line |
| `Sse.EventResponse.Heartbeat` | packages/relay/src/routes/events.ts:46-48 | appends one comment |
| `Sse.StreamRoundTrip` | packages/relay/src/routes/events.ts:37-48 | any events with comments in between, cut anywhere, are delivered exactly and in order, and the buffer is the unfinished part (section 9.2.6 of the WHATWG HTML Standard) |
| `EndToEnd.ScreenMirrorsTable` | packages/monitor/src/sse.ts:46-74 | a reader is fed the printed stream in any chunks, cut also inside the next frame: its buffer is the unfinished part, and a monitor given what it delivered, with reveals in between, agrees with the relay table |
| `EndToEnd.Show` | packages/monitor/src/App.tsx:33-45 | the store, given events one by one, holds their fold |
| `EndToEnd.Watch` | packages/monitor/src/App.tsx:28-51 | chunks in, store out: the entries of the store itself agree with the relay table |
| `Caches.BoundedStaleness` | packages/relay/src/keystore.ts:35-47 | every key the relay checks a signature with is what the registry answered less than relayTtl + resolverTtl + both latencies + the delay before the check earlier, with overlapping lookups and late answers overwriting newer ones |
| `Caches.StalenessIsExact` | packages/resolver/src/routes/resolve.ts:31-51 | the bound is attained: for every registry answer some run uses it exactly that late |
| `Caches.OldestKey` | packages/relay/src/keystore.ts:35-47 | the run that attains it |
| `Caches.BypassIsFresh` | packages/resolver/src/routes/resolve.ts:29-35 | a request for a fresh answer gets what the registry said after it reached the resolver, whatever is cached and whoever stores what meanwhile |
| `Caches.InvalidatedIsAsked` | packages/relay/src/keystore.ts:49-51 | an invalidated ref is asked for again, and no other is |
| `KeyLookup.Keystore.Begin` | packages/relay/src/keystore.ts:35-40 | answers from the cache exactly while the entry is younger than the time to live |
| `KeyLookup.Keystore.Finish` | packages/relay/src/keystore.ts:40-47 | stores the answer over whatever is there |
| `KeyLookup.Keystore.InvalidateRef` | packages/relay/src/keystore.ts:49-51 | forgets that ref only |
| `KeyLookup.KeyPath.GetKey` | packages/relay/src/keystore.ts:35-40 | up to its await a lookup of the relay is the step RelayGet: the cached key, or a request |
| `KeyLookup.KeyPath.Resolve` | packages/resolver/src/routes/resolve.ts:22-35 | up to its await the resolver's route is the step ResolverGet; an empty ref is refused |
| `KeyLookup.KeyPath.Answer` | packages/resolver/src/routes/resolve.ts:37-51 | from its await on it is the step ResolverStore when a document was found, and nothing is cached otherwise |
| `KeyLookup.KeyPath.TakeKey` | packages/relay/src/keystore.ts:40-47 | from its await on the lookup of the relay is the step RelayStore |
| `KeyLookup.KeyPath.KeysAreFresh` | packages/relay/src/routes/push.ts:46-54 | so for the objects themselves: every signature was checked with a key that the registry gave at most the bound before |
| `Resolver.LookupIsCanonical` | packages/resolver/src/registry/sii.ts:88-122 | a document that passes the triple check is reported under the normal form of the requested URI |
| `Resolver.FoundIff` | packages/resolver/src/registry/sii.ts:88-122 | for a URI of the configured chain or a bare token id: a document is found, and is that document, if and only if its reference, in whatever spelling, is the one asked for; otherwise the lookup fails |
| `Resolver.NotFoundIff` | packages/resolver/src/registry/sii.ts:53-86 | not found if and only if the contract reverts or has no URI; every other answer, another chain and any other key are failures |
| `Resolver.ResolveRoute.Begin` | packages/resolver/src/routes/resolve.ts:22-35 | a cached answer is fresh enough and reports the normal form of the request |
| `Resolver.ResolveRoute.Finish` | packages/resolver/src/routes/resolve.ts:37-51 | a fresh answer reports the normal form, 404 and 502 leave the cache alone |
| `Client.SortIsStable` | packages/core/src/client.ts:90-92 | the priority sort is ordered and keeps the listed order within a priority |
| `Client.StableOrderIsUnique` | packages/core/src/client.ts:90-92 | only one sequence is |
| `Client.RoutesInOrder` | packages/core/src/client.ts:90-92 | the relays that send asks, in order: the override, or the recipient's relays by priority and as listed within one; no other list qualifies |
| `Client.ReachedIff` | packages/core/src/client.ts:94-116 | the next relay is asked only after an HTTP answer other than 202 and 409 |
| `Client.Send` | packages/core/src/client.ts:90-120 | succeeds if and only if some relay in that order answers 202 and every earlier answer is neither 202 nor 409, and then returns that relay's answer; it aborts if and only if a fetch throws first |
| `Client.Receive` | packages/core/src/client.ts:123-151 | returns the opened first occurrences of the concatenated pickups in inbox order |
| `Client.OpenNew` | packages/core/src/client.ts:133-148 | the loop over one relay's envelopes: an id is marked as seen before it is opened |
| `Client.ReceivedInOrder` | packages/core/src/client.ts:129-150 | receive returns the messages of the first copies that open, all of them, in the order in which they were picked up |
| `Client.FirstCopyIsReturned` | packages/core/src/client.ts:133-148 | every id whose first copy opens is returned |
| `Client.OpenedDistinct` | packages/core/src/client.ts:133-148 | no id is returned twice and none is invented |
| `Client.FirstCopiesCover` | packages/core/src/client.ts:133-148 | first copies miss no id |
| `Client.Ack` | packages/core/src/client.ts:153-176 | reports exactly the ids some relay said it dropped |
| `Delivery.SendOver` | packages/core/src/client.ts:94-120 | send over N relays that answer anything, or nothing, as long as a 202 comes from the relay asked: it succeeds if and only if a relay reached says 202, what it returns is what that relay told it, whose run accepts the envelope at that step, and no relay that spoke for itself otherwise did |
| `Delivery.AcceptedIsHeld` | packages/relay/src/routes/push.ts:64-99 | after a 202 the relay holds the id with that signature since the reported time, and the very envelope unless another one under the same signature came first |
| `Delivery.LeavesOnlyIfRemoved` | packages/relay/src/repo.ts:65-95 | a row leaves at a step if and only if the recipient's accepted ack or an eviction at or after its expiry removes it |
| `Delivery.PickupIsExact` | packages/relay/src/routes/pickup.ts:59-70 | a pickup contains an envelope if and only if it is held, addressed to the agent and received since |
| `Delivery.PickupInOrder` | packages/relay/src/repo.ts:53-63 | a pickup lists its envelopes in the order in which they arrived, each once |
| `Delivery.AcceptedIsPickedUp` | packages/relay/src/routes/pickup.ts:59-70 | every later pickup by the recipient contains an accepted envelope that nothing has removed |
| `Delivery.Delivered` | packages/agents/test/integration.test.ts:136-156 | over N relays: the accepted id has a first copy in inbox order, receive returns the id if and only if that copy opens, and it is the envelope sent unless an earlier relay handed out another under that id |
| `Delivery.ReturnedIffFirstOpens` | packages/core/src/client.ts:129-150 | receive returns an id if and only if its first copy opens |
| `Delivery.AckIsExact` | packages/relay/src/routes/ack.ts:63-74 | an answered ack drops exactly the named ids it held for the agent and leaves every other row as it was |
| `Delivery.AckedEverywhere` | packages/core/src/client.ts:153-176 | after an ack over N relays no relay that answered 200 holds an acked id for the agent until it is pushed again, and the client is told exactly what was dropped |
| `AuthHeader.ParseSignatureHeader` | packages/core/src/auth-header.ts:29-51 | the parsing loop computes the specification function Parse, error by error |
| `AuthHeader.HeaderRoundTripIff` | packages/core/src/auth-header.ts:29-60 | parsing a formatted header gives the fields back if and only if each is nonempty, trimmed and free of commas |
| `AuthHeader.FormatText` | packages/core/src/auth-header.ts:53-60 | the header that is sent, as one text |
| `AuthHeader.ParsedIsSendable` | packages/core/src/auth-header.ts:29-51 | whatever the parser accepts can be printed again |
| `AuthHeader.ParseIff` | packages/core/src/auth-header.ts:29-51 | which headers parse and to what, the last of a repeated key counting, and which error every other one gets |
| `AuthHeader.ChallengeTexts` | packages/core/src/auth-header.ts:8-20 | the texts that are signed, piece by piece, with the ids of an ack sorted and joined by commas |
| `AuthHeader.PickupChallengeCanonical` | packages/core/src/auth-header.ts:8-10 | two pickup challenges are equal if and only if agent, timestamp and nonce are: a signature is good for one nonce |
| `AuthHeader.SortCanonical` | packages/core/src/auth-header.ts:18-19 | two id lists sort alike if and only if they are the same multiset |
| `AuthHeader.LeqIff` | packages/core/src/auth-header.ts:18-19 | ids are sorted as texts are: a beginning first, else by the first character that differs |
| `AuthHeader.AckChallengeCanonical` | packages/core/src/auth-header.ts:12-20 | two ack challenges are equal if and only if agent, timestamp, nonce and multiset of ids are (section 6.3 of the protocol specification) |
| `AuthHeader.PurposesAreSeparate` | packages/core/src/auth-header.ts:8-20 | no pickup challenge equals an ack challenge |
| `ScutUri.ParseAfterFormat` | packages/core/src/agent-ref.ts:10-22 | parsing a formatted reference gives it with its contract in lower case |
| `ScutUri.NormalForm` | packages/core/src/agent-ref.ts:10-22 | format after parse is idempotent, and two URIs parse alike if and only if their normal forms match |
| `ScutUri.NormalIff` | packages/core/src/agent-ref.ts:10-22 | a URI is normal if and only if its chain id has no leading zero and its contract is in lower case |
| `ScutUri.UriGrammar` | packages/core/src/agent-ref.ts:3-16 | the matched expression spelled out: digits, 0x and 40 hexadecimal digits, digits; and the reference taken from them |
| `ScutUri.UriParts` | packages/core/src/agent-ref.ts:3-12 | every URI has those three parts |
| `ScutUri.LowerIs` | packages/core/src/agent-ref.ts:14 | lower case leaves no capital and every letter the same letter |
| `ScutUri.UriHasOneColon` | packages/core/src/agent-ref.ts:3 | every scut:// URI has exactly one colon, which is what AckChallengeCanonical asks of an agent id |
| `JsonText.CanonicalSize` | packages/core/src/canonicalize.ts:3-13 | the canonical text of any JSON value, taking the texts of fractional numbers as given, takes as many bytes as its JSON.stringify text |
| `JsonText.CanonicalIgnoresOrder` | packages/core/src/canonicalize.ts:3-13 | the same members in another order have the same canonical form (section 3.2 of RFC 8785) |
| `JsonReader.ParseStringify` | packages/core/src/canonicalize.ts:3-13 | the text of a JSON value reads back as that value and nothing else (section 2 of RFC 8259) |
| `JsonReader.Utf8Back` | packages/core/src/canonicalize.ts:11-13 | and its bytes as that text (section 3 of RFC 3629) |
| `EnvelopeReader.CanonicalIsSorted` | packages/core/src/canonicalize.ts:3-13 | the canonical members are in order of their names (section 3.2.3 of RFC 8785) |
| `EnvelopeReader.SignatureBinds` | packages/core/src/sign.ts:7-31 | if two member lists have the same bytes to sign, every member of one but the signature is one of the other, up to the order inside of objects |
| `EnvelopeReader.VerifiedSaysWhatWasSigned` | packages/core/src/envelope.ts:48-76 | what verifies has the sender, recipient, time, time to live, id, ciphertext and key that were signed |
| `EnvelopeReader.Base64RoundTrip` | packages/core/src/base64.ts:3-11 | base64 decodes back (section 4 of RFC 4648) |
| `EnvelopeSize.Base64` | packages/core/src/base64.ts:3-6 | padded base64 of n bytes is 4 * ceil(n / 3) characters, none of which JSON escapes (section 4 of RFC 4648) |
| `EnvelopeSize.SignedBytes` | packages/core/src/sign.ts:7-10 | signing does not change what is signed |
| `EnvelopeSize.VerifiedIsSigned` | packages/core/src/sign.ts:7-31 | in whatever order the members arrive, the bytes verified are the bytes signed, and the signature with them is on those bytes |
| `EnvelopeSize.SizeIsOneMore` | packages/core/src/envelope.ts:65-82 | the size buildEnvelope checks is one more than the UTF-8 length of the JSON it sends |
| `EnvelopeSize.BuiltFits` | packages/relay/src/config.ts:23 | every built envelope fits the default body limit; the check refuses exactly the sizes from the limit itself on, one byte early |
| `EnvelopeSize.BuildIff` | packages/core/src/envelope.ts:65-90 | what is refused as too large, plaintext or envelope, by the bytes of the body and the bytes sent |
| `EnvelopeSize.ComputedSizeExact` | packages/core/src/envelope.ts:76-82 | the checked size as a number: 430 bytes, the addressing, and the base64 of the sealed body |
| `EnvelopeSize.AnyBodyFitsIff` | packages/core/src/encrypt.ts:26-31 | every body that may be encrypted can be sent if and only if the addressing takes at most 14586 bytes |
| `EnvelopeSize.ScutPartiesFitIff` | packages/core/src/types.ts:122-123 | for scut:// URIs that is a bound on the lengths of the two URIs, the timestamp and the time to live |
| `Contract.CallKeeps` | contracts/src/OpenSCUTRegistry.sol:37-43 | every call keeps ids consecutive, URIs nonempty and owners in place; a token comes to be by a mint alone |
| `Contract.OnlyTheOwnerChanges` | contracts/src/OpenSCUTRegistry.sol:47-52 | a URI changes only by its owner's update, an owner only by a transfer of someone authorized, which ends the approval, an approval only by the owner or an operator, an operator only by the owner |
| `Contract.ApprovalsAuthorize` | contracts/src/OpenSCUTRegistry.sol:14 | an approval lets its spender move that token, an operator move and approve any of the owner's, until it is taken back |
| `Contract.OwnerMay` | contracts/src/OpenSCUTRegistry.sol:47-52 | an owner can always update and transfer his token, and that changes this token's URI or owner to the one given and no other's |
| `Contract.StaysUnapproved` | contracts/src/OpenSCUTRegistry.sol:14 | whoever approves nobody stays that way, whatever others do |
| `Contract.MovesHisOwn` | contracts/src/OpenSCUTRegistry.sol:14 | and he alone moves his tokens |
| `Contract.OpenSCUTRegistry.MintToken` | contracts/src/OpenSCUTRegistry.sol:37-43 | mints the next id, or reverts: on an empty URI, on nobody, or on a receiver that does not take it |
| `Reentrancy.ReentrantIsSequential` | contracts/src/OpenSCUTRegistry.sol:37-43 | the URI is written after the receiver has been called: a call with the calls made from within it, to any depth, comes to the same as plain calls one after the other |
| `Reentrancy.ReentrantInRuns` | contracts/src/OpenSCUTRegistry.sol:37-43 | so whatever such calls do in a run of the registration service, a run of plain calls does |
| `Contract.OpenSCUTRegistry.Update` | contracts/src/OpenSCUTRegistry.sol:47-52 | sets the URI of a token the caller owns or reverts |
| `Contract.OpenSCUTRegistry.Transfer` | contracts/src/OpenSCUTRegistry.sol:14 | transferFrom by the owner, an operator or who is approved, else a revert; the approval ends |
| `Contract.OpenSCUTRegistry.ApproveOne` | contracts/src/OpenSCUTRegistry.sol:14 | approve by the owner or an operator, else a revert |
| `Contract.OpenSCUTRegistry.ApproveAll` | contracts/src/OpenSCUTRegistry.sol:14 | setApprovalForAll for the caller's own tokens |
| `Contract.OpenSCUTRegistry.ScutIdentityURI` | contracts/src/OpenSCUTRegistry.sol:57-62 | reverts exactly for unminted tokens and never answers the empty string |
| `RegisterDb.RegisterDb.InsertRegistration` | packages/register/src/db.ts:62-82 | inserts a custodial row, or fails on a token id that is there |
| `KeySuccession.DatabaseHoldsLastKey` | packages/register/src/db.ts:84-101 | in every run the row found for a token holds the last key committed for it, and there is none exactly when it was never registered |
| `RegisterDb.RegisterDb.CountByDisplayNameToday` | packages/register/src/db.ts:109-119 | going over the table row by row counts exactly the rows of that name created in the last 24 hours |
| `RegisterRuns.CountsAreRegistrations` | packages/register/src/db.ts:121-137 | in every run: the counter of a day equals the number of rows created that day, but for the registrations between whose insert and count the day changed, in and out |
| `RegisterDb.RegisterDb.IncrementToday` | packages/register/src/db.ts:129-137 | adds one to the counter of the current UTC day only |
| `RegisterDb.RegisterDb.UpdateAfterMutation` | packages/register/src/db.ts:139-163 | replaces only the fields that carry a value; an absent or empty key keeps the old one |
| `RegisterRequests.GrantedIff` | packages/register/src/routes/transfer.ts:22-49 | in every run a request goes ahead if and only if: a registration, its name is free for a day and the cap not reached; an update, it is signed for its token with the key in force of a token never given away; a transfer, its owner is an address and it is signed so for that token and owner |
| `RegisterRequests.TransferAnswer` | packages/register/src/routes/transfer.ts:16-49 | the answers to a transfer by the history: 404 never registered, 409 given away, 401 and 500 what the signature check under the key in force says |
| `RegisterRequests.UpdateAnswer` | packages/register/src/routes/update.ts:17-56 | the answers to an update by the history, likewise |
| `RegisterRequests.RegisterAnswer` | packages/register/src/routes/register.ts:28-41 | the answers to a registration: 429 for a name registered in the last 24 hours, 503 for a full day |
| `RegisterRequests.TransactionsAreRequested` | packages/register/src/registry-client.ts:52-115 | in every run every transaction of the wallet, one given up on included, is what a request asked that was granted before and not answered: the mint; both keys and the rest of a registration; an update's document; a transfer |
| `RegisterRequests.TransfersAreSigned` | packages/register/src/routes/transfer.ts:36-56 | no token leaves the wallet but by a transfer request signed under the key in force for that token and that owner, who gets it |
| `RegisterRequests.AnswersAreRequested` | packages/register/src/routes/transfer.ts:51-72 | every 2xx answer follows a granted request and its landed transaction; the row then holds both keys, name and custody as the request says, and the chain its document or owner |
| `RegisterRequests.ReleasesAreSigned` | packages/register/src/routes/transfer.ts:36-66 | every custody given up was signed for by the holder and went to the owner he named |
| `RegisterRequests.TransferChallengeCanonical` | packages/register/src/routes/transfer.ts:12-37 | the signed text speaks of one token and one owner |
| `RegisterRequests.CustodyByHistory` | packages/register/src/db.ts:139-163 | in every run the database keeps custody of exactly the registered tokens never given away |
| `RegisterNames.NameLimitHolds` | packages/register/src/routes/register.ts:28-35 | with at most k registrations in flight no name is registered more than k times in 24 hours |
| `RegisterWitness.NameLimitReached` | packages/register/src/routes/register.ts:28-105 | and for every name and k a run reaches that |
| `RegisterNames.DayIs` | packages/register/src/db.ts:121-127 | the days of the counter are UTC days |
| `RegisterServer.RegisterService.RegisterBegin` | packages/register/src/routes/register.ts:28-41 | name check, cap check, and the answers they give |
| `RegisterServer.RegisterService.RegisterEnd` | packages/register/src/routes/register.ts:94-107 | insert and count |
| `RegisterServer.RegisterService.UpdateBegin` | packages/register/src/routes/update.ts:17-56 | every refusal in its order, before anything is written |
| `RegisterServer.RegisterService.UpdateEnd` | packages/register/src/routes/update.ts:69-74 | the keys the document carries go into the database |
| `RegisterServer.RegisterService.TransferBegin` | packages/register/src/routes/transfer.ts:17-49 | every refusal in its order |
| `RegisterServer.RegisterService.TransferEnd` | packages/register/src/routes/transfer.ts:64-66 | custody is given up |
| `RegisterServer.RegisterService.Transact` | packages/register/src/registry-client.ts:52-115 | the transaction a handler waits for takes effect on the contract |
| `RegisterServer.RegisterService.Abandon` | packages/register/src/routes/update.ts:62-67 | a failed transaction or a lost receipt answers 502 and writes nothing |
| `RegisterServer.RegisterService.StopWaiting` | packages/register/src/registry-client.ts:71-85 | giving up while the transaction is pending answers 502 and leaves the transaction able to land later |
| `RegisterRuns.RunKeeps` | packages/register/src/routes/register.ts:56-105 | the database only ever names tokens that exist, each under its own decimal id, and no two handlers register one token |
| `RegisterRuns.CommitKeeps` | packages/register/src/routes/register.ts:94-105 | inserting a registration never meets the primary key |
| `RegisterRuns.CapHolds` | packages/register/src/routes/register.ts:36-41 | with at most k registrations in flight no day's count exceeds the cap by more than k - 1, across day changes too |
| `RegisterWitness.CapReached` | packages/register/src/routes/register.ts:36-105 | for every cap and every k a run reaches that bound |
| `RegisterRuns.CustodyNeverReturns` | packages/register/src/db.ts:139-163 | a row never disappears, and custody once given up never returns |
| `RegisterRuns.TransferBalance` | packages/register/src/routes/transfer.ts:51-64 | for every token and run: arrivals at the wallet equal departures from it, plus one while it owns the token |
| `RegisterRuns.AtMostOneTransfer` | packages/register/src/routes/transfer.ts:24-64 | a token that reached the wallet only by its mint is transferred at most once, however handlers interleave |
| `RegisterRuns.DeparturesAreTransfers` | packages/register/src/registry-client.ts:88-115 | in every run a token has left the wallet as often as the service's transfer transactions for it landed, and in no other way |
| `RegisterRuns.NobodyIsApproved` | packages/register/src/registry-client.ts:52-115 | in every run nobody is approved for what the wallet owns, while others approve of whom they like |
| `KeySuccession.SignedWithTheKeyChecked` | packages/register/src/routes/update.ts:23-49 | in every run every accepted update was signed, for its own token, with the key that was in force when its signature was checked |
| `KeySuccession.SuccessionIf` | packages/register/src/routes/update.ts:23-77 | in every run in which no other key came into force between the check of an update and its acceptance, every accepted update of the token is signed with the key in force; two spellings of a key are one key |
| `KeySuccession.SuccessionIff` | packages/register/src/routes/update.ts:23-77 | if a signature is good under one key only, however it is spelled: every accepted update of a token is signed with the key in force at its acceptance, back to the registered one, if and only if no other key came into force between the check of an update and its acceptance |
| `KeySuccession.KeysSucceed` | packages/register/src/routes/update.ts:23-77 | a schedule that is enough: handlers may overlap as long as no update that brings another key is accepted while a second update of the token is under way |
| `ChainAgreement.AgreementIff` | packages/register/src/routes/update.ts:58-74 | in every run, for every custodial token: the wallet owns it and the database key is the one in its on-chain document if and only if the wallet got the token once more than it gave it away and the last document to land carries no key or the last key to be accepted |
| `ChainAgreement.KeptTokenAgreesIff` | packages/register/src/routes/update.ts:58-74 | for a token the service never transferred, the keys alone decide: agreement if and only if the last document to land carries no key or the key accepted last |
| `LandingOrder.DatabaseAgreesWithChain` | packages/register/src/routes/update.ts:58-74 | a schedule that is enough: updates of the token are accepted in the order in which they land, also when several land before the first is accepted, and none of its transactions is given up |
| `ChainAgreement.LostUpdate` | packages/register/src/registry-client.ts:71-85 | after any run, an update that lands and whose handler fails leaves agreement if and only if its document carries no other key |
| `ChainAgreement.LostTransfer` | packages/register/src/registry-client.ts:88-115 | after any run, a transfer that lands and whose handler fails leaves agreement if and only if there was agreement and the new owner is the wallet itself |
| `ChainAgreement.UpdateRepairs` | packages/register/src/routes/update.ts:58-74 | after any run, an update that lands and is accepted at once brings agreement back |
| `RegisterWitness.RegisterFirst` | packages/register/src/routes/register.ts:28-118 | one registration leads from nothing to an idle custodial token under the key registered |
| `RegisterWitness.OverlapBreaksSuccession` | packages/register/src/routes/update.ts:23-77 | from every idle custodial token: two overlapping updates, the second accepted under a key no longer in force |
| `RegisterWitness.OutOfOrderBreaksAgreement` | packages/register/src/routes/update.ts:58-74 | from every idle custodial token, with nothing failing: two updates land in one order and are accepted in the other, and database and chain disagree |
| `RegisterWitness.InOrderKeepsAgreement` | packages/register/src/routes/update.ts:58-74 | from every idle custodial token: two updates land before either is accepted, are accepted in that order, and database and chain agree |
| `RegisterWitness.LostReceiptBreaksAgreement` | packages/register/src/routes/update.ts:58-67 | from every idle custodial token, with nothing overlapping: one lost receipt, and they disagree |
| `RegisterWitness.LateLandingBreaksAgreement` | packages/register/src/registry-client.ts:71-85 | the same when the handler gives up first and its transaction lands afterwards |
| `RegisterWitness.AllHappen` | packages/register/src/routes/update.ts:23-77 | overlap, wrong order, lost receipt, and good order, in runs that start with an empty contract and register one agent |
| `RegisterWitness.AllCanHappen` | packages/register/src/routes/update.ts:34-41 | and their premises can be met: for every cap, wallet and first registration some service, with a codec spelled out and signatures good under one key in several spellings, has all those runs |
| `DocCodec.DocBack` | packages/register/src/registry-client.ts:71-75 | a codec that gives every document back exists |

## Left out

- Cryptography: key agreement, AEAD, HKDF, Ed25519 and key decoding are not modelled beyond outcomes and lengths.
- Schema validation: requests that fail a zod schema are answered 400 without touching any state and are not steps of the machines, except the checks on token ids and addresses.
- `updated_at` of a registration is one more reading of the clock in the original and never read back; here a new row has it equal to `created_at`.
- The `at` stamps of events, `sizeBytes` of monitor entries, transaction hashes and client addresses: recorded, never decided on.
- SQLite: rows that a query may return in any order come in an arbitrary order here; storage errors and the relay's restart on a filled database are not modelled.
- JSON.stringify and JSON.parse of events, and UTF-8 decoding of a byte stream whose chunks cut a character: the stream is text after decoding.
- Monitor reconnects: the model starts with one subscription; events missed between two connections are lost in the original too.
- The reveal orchestrator's timers and `stop()`, and what React does with a snapshot: timers appear as decryptions that finish at any time.
- Reveal at most once: not claimed, because the orchestrator can queue the same envelope twice.
- Numbers beyond 2^53: chain ids, times and times to live are exact integers here; a time to live is an integer.
- UTF-16: strings are sequences of Unicode scalar values, so lone surrogates do not occur and sorting compares scalars, which differs from JavaScript only outside the Basic Multilingual Plane.
- Caches: the relay and the resolver read one common clock.
- Fetching identity documents: `resolveUriForFetch`, gateways and data: URI decoding appear as one answer; the file-backed registry and its reload are not modelled.
- Addresses on the chain are compared as written in lower case. Whether a receiver takes a token is a parameter; the events of calls made from within another call are not ordered.
- Identity documents whose key members are not strings: the registration service's database would refuse them after the chain was written.
- RPC back ends that lag: `waitForOwnerVisible` and confirmations appear as handlers that wait, or fail, at any point.
- Rate limits, the capability endpoint, health checks, `scut recv --watch`, the command line, key files, and everything the monitor and the site render: easy or without a claim to make.
- Client.Send: the resolution of the recipient and the building of the envelope come first in the original; the model starts with the relays and the envelope.
