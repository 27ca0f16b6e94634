# Play-event pipeline of the DOOH campaign backend, in Dafny

This project models the in-process event pipeline of the DOOH campaign
backend. Display screens post "play" events. The `POST /events` handler
checks the three required fields and puts the event on an in-memory FIFO
queue. A background processor drains the queue in batches of at most
`BATCH_SIZE = 10` events. It folds each event into a per-campaign stats
store. That store is a JS `Map` from campaign id to `{play_count, screens: Set,
last_played}`. `GET /campaigns` projects the store into summaries and
sorts them by descending play count.

Files and modules:

- `js_values.dfy`, module `JsValues`: JavaScript values as they arrive in a
  parsed JSON body. This covers `undefined`, `null`, booleans, numbers,
  strings and objects by reference. It also defines truthiness and property
  reads on plain objects.
- `ordered_set.dfy`, module `OrderedSet`: JS `Set`/`Map` keys keep insertion
  order. They are modelled as duplicate-free sequences.
- `event_service.dfy`, module `EventService`: the queue and the stats store
  (`backend/services/eventService.js`). The two module globals become the
  immutable `State`. Each operation is a pure function from state to state.
- `queue_processor.dfy`, module `QueueProcessor`: the batch processor and
  its Stopped/Running state machine (`backend/services/queueProcessor.js`).
- `api.dfy`, module `Api`: the pure logic of the two handlers in
  `backend/index.js`. That is the required-field check with its enqueue
  decision, and the campaign projection with its stable descending sort.

Modelling choices:

- An event is an object (`map<string, Value>`). `addEventToQueue` spreads
  the event and adds `queued_at`, which is a map update. A campaign or
  screen id is whatever value the field holds. So the validity check uses
  JavaScript truthiness, and the store is keyed by `Value`. In that key
  type, strings compare by content and objects by reference, which is how
  JS `Map` and `Set` compare keys.
- The store keeps its key insertion order (`CampaignStats.order`). The
  source's `Array.from(stats.entries())` lists entries in that order, and
  the stable `Array.prototype.sort` keeps it among ties.
- The only statement of `processEvent` that can throw is its closing log
  line (`backend/services/eventService.js:56`). Its template literal
  converts the campaign id to a string, and that conversion throws only for
  an object id, for instance `{"toString": null}`. The store has been
  updated by then. So every dequeued event is applied to the store, and a
  throw only keeps the event out of `processedCount`. Which object ids
  throw is an oracle: each batch takes `failures: set<nat>`, the positions
  within the batch whose conversion throws. It takes effect only where the
  campaign id is an object.
- `addEventToQueue` logs the campaign and screen ids the same way after its
  push (`backend/services/eventService.js:17`). `Api.PostEvent` takes the
  oracle `logThrows`. When it holds and one of those ids is an object, the
  handler answers 500, with the event already queued.
- A tick of the `setInterval` timer is an explicit call, `Tick`.
  `processorInterval` is the `Processor` datatype, `Stopped` or `Running`.
- The ingestion time `new Date().toISOString()` is a string parameter
  (`now`, `stamps`).

The validity check of `POST /events` is JavaScript truthiness, not a check
for non-empty strings: the number `1`, `true` and any object pass as ids.

## Model

| member | source | states |
|---|---|---|
| OrderedSet.Add | backend/services/eventService.js:53 | `Set.add` gives the old members plus the new one. Re-adding a member changes nothing, a new member goes at the end, and the set stays duplicate-free. |
| OrderedSet.NoDupsCardinality | backend/index.js:56 | The `size` of a duplicate-free insertion-ordered set equals the number of its distinct elements. |
| EventService.AddEventToQueue | backend/services/eventService.js:12-18 | The queue grows by exactly one element at the tail, and the earlier elements are unchanged. The new element has every caller property except `queued_at` unchanged, and its `queued_at` is the ingestion time. The stats store is untouched. |
| EventService.GetNextEvent | backend/services/eventService.js:24-26 | On a non-empty queue it returns the head and leaves the tail. On an empty queue it returns `null` and the queue stays empty. The store is never touched. |
| EventService.GetQueueSize | backend/services/eventService.js:32-34 | The size is zero exactly when a dequeue would return `null`. Exactly that many dequeues each return an event and together empty the queue. |
| EventService.QueueSizeCountsPending | backend/services/eventService.js:32-34 | The size read is the pending count. Enqueue raises it by one. Dequeue lowers it by one unless it is 0. `null` is returned exactly when the size is 0. |
| EventService.DrainIsFifo | backend/services/eventService.js:24-26 | `n` successive dequeues return the first `n` queued events in order and leave the rest. Past the end they return nothing and leave the queue empty. |
| EventService.EnqueueAllAppends | backend/services/eventService.js:12-16 | Successive enqueues append the stamped events behind the pending ones, in call order, and leave the store unchanged. |
| EventService.Fifo | backend/services/eventService.js:12-26 | FIFO: after enqueuing E1..En on an empty queue, n dequeues return the stamped E1..En in exactly that order and empty the queue. |
| EventService.ProcessEvent | backend/services/eventService.js:40-57 | An unseen campaign gets a new record and its key is appended to the key order. The campaign's play count rises by exactly 1. Its screen set gains the screen with set semantics. `last_played` becomes the event's timestamp unconditionally. Every other campaign is unchanged. |
| EventService.ProcessEventScreenOrder | backend/services/eventService.js:53 | The processed campaign's screens keep their insertion order, with the new screen appended only when it was not there yet. |
| EventService.ProcessEventKeepsValid | backend/services/eventService.js:43-54 | Processing one event keeps the store invariant. Every key appears once in the key order, and every screen set is duplicate-free with between 1 and `play_count` members. |
| EventService.FoldAggregates | backend/services/eventService.js:40-57 | After folding a sequence of events, each campaign's play count is its old count plus the number of its events, with no deduplication. Its screens are the old set plus every screen that played it. A record exists exactly when one existed before or some event names the campaign. `last_played` is the timestamp of the campaign's last event in processing order, not the largest one. |
| EventService.FoldKeepsValid | backend/services/eventService.js:43-54 | Folding events keeps the store invariant. Every key appears once in the order. Every screen set is duplicate-free, and each record has between 1 and `play_count` screens. |
| EventService.ProcessTwiceCountsTwice | backend/services/eventService.js:43-54 | Applying the same event twice adds 2 to the play count. The screen set is the same as after applying it once. |
| EventService.GetCampaignById | backend/services/eventService.js:72-74 | Returns `null` exactly when the campaign has no record. Otherwise it returns the record, which has at least one play and a non-empty screen set. |
| EventService.ResetStats | backend/services/eventService.js:79-82 | Afterwards the queue and the stats map are both empty, the store is valid, and a dequeue returns `null`. |
| QueueProcessor.ProcessBatch | backend/services/queueProcessor.js:8-35 | Exactly `min(BATCH_SIZE, queueSize)` events leave the queue, from the head. The store equals folding `processEvent` over all of those events in dequeue order, including those whose apply threw after updating the store. `processedCount` counts the applies that did not throw and never exceeds the batch size. On an empty queue nothing changes. |
| QueueProcessor.BatchNeverDequeuesNull | backend/services/queueProcessor.js:18-22 | Once the first `i` queued events are gone, and `i` is below the queue length, the next `getNextEvent` returns the `i`-th queued event, never `null`, and leaves the events after it. Every `i` below `min(BATCH_SIZE, queueSize)` qualifies, and `ProcessBatch` relies on this at each step. |
| QueueProcessor.CountedWithoutThrows | backend/services/queueProcessor.js:20-25 | When no apply throws, for instance when every campaign id is a string, `processedCount` counts the whole dequeued batch. |
| QueueProcessor.FailureIsolation | backend/services/queueProcessor.js:20-29 | Every event whose apply does not throw is counted. The count is the batch length minus the number of throwing applies, so a throw costs only its own event. |
| QueueProcessor.ThirdOfFiveFails | backend/services/queueProcessor.js:20-29 | In a batch of five where the third apply throws, events 1, 2, 4 and 5 are counted, in that order. |
| QueueProcessor.ThrowingApplyIsStillRecorded | backend/services/eventService.js:43-56 | An event whose apply throws from the log line is not counted, yet the store has already recorded its play. |
| QueueProcessor.BatchOfTwentyFive | backend/services/queueProcessor.js:18-21 | With 25 events queued, one batch takes the first 10 and leaves the last 15. |
| QueueProcessor.SmallBacklogDrainsInOneBatch | backend/services/queueProcessor.js:18-30 | A backlog of at most `BATCH_SIZE` events is emptied by one batch, which applies every event to the store in queue order. |
| QueueProcessor.TwoPlaysEndToEnd | backend/services/queueProcessor.js:8-35 | Two plays of one campaign (for example `c1` on `s1` at `T1`, then on `s2` at `T2`) are queued and processed in one batch. Afterwards the campaign has play count 2, both screens, and the second timestamp as `last_played`. |
| QueueProcessor.Start | backend/services/queueProcessor.js:38-51 | When already running, start is a no-op. When stopped, it runs one batch immediately and ends up running. |
| QueueProcessor.Tick | backend/services/queueProcessor.js:48 | A timer tick runs one batch while running. A stopped processor has no timer, so nothing happens. |
| QueueProcessor.Stop | backend/services/queueProcessor.js:54-60 | Stop always ends in the stopped state. Stopping when already stopped changes nothing. Queue and store are kept, so a later `Start` behaves as a fresh start on them. |
| Api.PostEvent | backend/index.js:27-47 | The event is rejected exactly when `screen_id`, `campaign_id` or `timestamp` is missing or falsy, and then the state is unchanged. Otherwise it is enqueued exactly once. The answer is 500 instead of 202 exactly when the log line's string conversion of an object id throws; the event stays queued. The store is never touched. |
| Api.PostEventKeepsQueueWellFormed | backend/index.js:31-37 | Posting and dequeuing keep every queued event's three required fields truthy. A body without `campaign_id`, or with `screen_id: ""`, is rejected. |
| Api.StatsKeysAreTruthy | backend/index.js:31-37 | Folding only accepted events never creates a record under a falsy campaign id. |
| Api.Summarize | backend/index.js:53-59 | One summary per campaign of the store, in key insertion order. Each summary has the campaign's play count and `last_played`. Its `screen_ids` list each of the campaign's screens exactly once, and `screens` is their number. |
| Api.SortByPlays | backend/index.js:61 | The result is a permutation of its input, ordered by non-increasing `play_count`. |
| Api.InsertKeepsSorted | backend/index.js:61 | Inserting an entry into a list sorted by non-increasing play count keeps it sorted. |
| Api.SortIsStable | backend/index.js:61 | Entries with equal play counts keep their relative order, as JavaScript's stable sort does. |
| Api.ListsMostPlayedFirst | backend/index.js:61 | Campaigns with 3, 7 and 1 plays are listed as 7, 3, 1. |
| Api.ListCampaigns | backend/index.js:49-66 | `total_campaigns` equals the list length, which is the number of campaigns in the store. There is exactly one entry per campaign. The list is ordered by non-increasing play count and is a permutation of the projected entries. Each entry carries its campaign's record. Its `screen_ids` list each screen once, and `screens` equals their number. |

## Left out

- HTTP routing, status codes, CORS and JSON parsing in `backend/index.js` are not modelled. Only the validity check with its enqueue decision, the 500 answer after a throwing log line, and the projection with its sort are kept. The 500 branch of `GET /campaigns` is left out: the projection, the numeric comparator and the serialisation of values that came from JSON do not throw.
- The `setInterval`/`clearInterval` timing and the 3000 ms cadence are not modelled. A tick is an explicit `Tick` call. `PROCESS_INTERVAL` is declared but no clock uses it.
- `new Date().toISOString()` is an opaque string parameter.
- All `console.log` and `console.error` output is left out.
- `getCampaignStats` returns the live `Map`. In the model that is just the `stats` field of `State`, read by `Api.ListCampaigns`.
- Whether converting a particular object id to a string throws depends on its properties, which the model does not represent. It is an oracle (`failures`, `logThrows`) that takes effect only for object ids.
- JSON numbers are exact decimals (`real`). IEEE rounding of very large or very precise numbers is not modelled. NaN cannot come from JSON.
- Objects and arrays used as field values are compared by an abstract reference identity (`Ref`). Their contents are not modelled.
- Concurrency is not modelled: the source is single-threaded, and a batch runs synchronously with no interleaved request.
- The code has no pause/resume, no per-screen statistics and no guard against overlapping batches, so the model has none either.
- Dafny's `string` is a sequence of Unicode scalar values. An id containing a lone surrogate, which JSON can carry as an escape such as `\ud800`, cannot be represented.
- EventService.ProcessEvent: `play_count` is an unbounded `nat`. In the source it is a double, and `play_count += 1` stops changing at 2^53, so the model's "exactly one more" holds only below that count.
- `backend/config/database.js` (the MongoDB connection), `backend/test-api.js` (a network test script) and `frontend/src/App.tsx` (the dashboard UI) are not part of this model.
