# Verified model of contextmatrix-backendkit

A Dafny model of the kit's in-memory state machines, with proofs about whole runs of them:

- **The log hub and the SSE handler** (`logbridge/hub.go`, `webhookcore/logs.go`). Bounded
  subscriber channels and bounded per-key backlogs hand entries to each other. Every hub method
  holds one mutex, but receives take none: runs of calls with receives inside them are proved to
  refine runs of atomic steps.
- **The replay cache and the dedup cache** (`webhookcore/replay.go`, `webhookcore/dedup.go`), and
  the two protocols that rest on them: replay protection and at-most-once message delivery.
- **The JSON Lines frame codec** (`frames/frames.go`): encoder, decoder, writer, scanner, reader.
- **The bridge and the redactor registry** (`logbridge/bridge.go`, `logbridge/registry.go`):
  UTF-8-safe truncation, the awaiting-human flag, the composed secret set.

Run `dafny verify dfyconfig.toml` in this directory to check everything.

## How the files fit together

| file | content |
|---|---|
| `Options.dfy` | the option type |
| `HubSpec.dfy` | the hub as a value, each operation as one step, and runs |
| `HubInvariants.dfy` | what every reachable hub state satisfies |
| `HubFlow.dfy` | conservation, order and loss for one retained, unshared key |
| `HubCopies.dfy` | accounting of every copy, with any mix of filters |
| `HubSubscriber.dfy` | what one subscriber gets, with any filter, and which keys are retained |
| `HubReceives.dfy`, `HubPublish.dfy`, `HubDrain.dfy` | the two calls that receives can fall inside, one channel operation at a time |
| `HubConcurrency.dfy` | whole runs of such calls refine runs of atomic steps |
| `LogHub.dfy` | the hub object with the loops of the source, each method equal to its step |
| `LogStream.dfy`, `LogRequests.dfy`, `LogSessions.dfy` | the SSE handler, one request with any filter, and any number of requests in a row |
| `TtlCache.dfy`, `CacheHistory.dfy` | the bounded cache, and its refinement of a history |
| `KeyedList.dfy`, `ReplayCache.dfy`, `DedupCache.dfy` | list with index, and the two cache objects |
| `ReplayProtection.dfy` | the ttl floor of `NewCore` and no double acceptance |
| `DedupRuns.dfy` | what the answers of the dedup cache mean over a run |
| `DedupProtocol.dfy`, `DedupSpacing.dfy` | ack implies delivered, and how far apart deliveries are |
| `Utf8.dfy`, `FrameCodec.dfy`, `Frames.dfy` | UTF-8 and truncation, the frame codec, the stream |
| `Bridge.dfy`, `BridgeEntries.dfy` | line classification, masking and the awaiting flag; what each kind of event is published as |
| `Registry.dfy` | the secret registry |

Objects of the source are classes; each of their methods is proved equal to a function on values,
and the theorems are about runs of those functions. Times and durations are whole nanoseconds as
unbounded integers, and the clock reading of a call is a parameter.

Where code and comments disagree the model follows the code. The comment on `sweep`
(`webhookcore/replay.go:181`) says it removes entries older than the ttl; the code also removes an
entry whose age is exactly the ttl, which a lookup still counts as a duplicate. The history
specification has that one exception, and `BoundarySweepReadmits` shows it is real.

Some claims of the source hold only under a condition, and each condition is proved to be exact.
Entries of a departing subscriber return to the backlog exactly when its filter is retained and
nobody else carries it (`DiscardedOnLeaveIff`, `OverlapReadsTwice`). They return in order exactly
when no reader of its channel overtakes the drain (`DrainInOrderIff` for entries that all differ,
`OvertakingReorders`). Every
ack of a run comes after a delivery exactly when no retry was answered while its message was in
flight and undelivered (`AcksImplyDeliveredIff`); the per-scope lock guarantees that, and so does
one client per message at a time, while a run with neither can lose a message
(`UnlockedRetryIsLost`). Two dedup pairs share a key exactly when one scope goes on, after a NUL,
into the other pair's id (`DedupKeyCollidesIff`).

## Model

| member | source | states |
|---|---|---|
| `LogHub.LiveHub.constructor` | logbridge/hub.go:48-50 | a new hub has no subscribers, no backlogs, and has handed out no id |
| `LogHub.LiveHub.Retain` | logbridge/hub.go:59-70 | idempotent; a no-op for an empty key or a hub without keyOf; nothing else changes |
| `LogHub.LiveHub.Release` | logbridge/hub.go:73-78 | the key and its backlog are gone, nothing else changes |
| `LogHub.LiveHub.Subscribe` | logbridge/hub.go:84-104 | the backlog moves whole into the new channel before any live entry and is cleared; every send of the replay loop finds room |
| `LogHub.LiveHub.Unsubscribe` | logbridge/hub.go:110-126 | unread entries return to the backlog when the filter is retained and unshared, else stay in the closed channel; the observer hears of each trimmed entry |
| `LogHub.LiveHub.Holds` | logbridge/hub.go:129-137 | true exactly when some subscriber carries the filter, whatever the map order |
| `LogHub.LiveHub.Requeue` | logbridge/hub.go:141-165 | drains the channel; the newest 256 of unread then backlog remain, one notification per dropped entry |
| `LogHub.LiveHub.Publish` | logbridge/hub.go:171-214 | every matching channel with room gets the entry, each full one drops it with a notification, and an unattached retained key's backlog gets it, losing its oldest at the cap |
| `LogHub.LiveHub.FanOut` | logbridge/hub.go:180-196 | the range over subscribers gives the same result in every order and counts refusals exactly |
| `LogHub.LiveHub.Receive` | webhookcore/logs.go:88-91 | a receive takes the oldest entry, also from a closed channel that still holds some |
| `HubInvariants.RunKeepsInv` | logbridge/hub.go:28-42 | in every state of every run: ids in range, capacities 256 to 512, queues within capacity, backlogs at most 256, keyed queues hold only their own key, open and closed channels distinct |
| `HubInvariants.NextKeepsInv` | logbridge/hub.go:28-42 | every single step keeps that invariant |
| `HubInvariants.BacklogExclusion` | logbridge/hub.go:121-156 | a non-empty backlog excludes subscribers on its key, so a requeue finds an empty backlog and restores exactly what was unread |
| `HubInvariants.ClosedChannelsOnlyDrain` | logbridge/hub.go:110-126 | over any run a closed channel is never reopened, closed again or sent to: entries only leave its front |
| `HubInvariants.SubscribeIsFreshAndNeverBlocks` | logbridge/hub.go:84-104 | a new id was never registered or retired before, in any run, and the replay fits its channel with 256 places to spare |
| `HubFlow.WindowConservation` | logbridge/hub.go:84-214 | over any run of atomic steps with k retained and unshared: reads then pending are an in-order subsequence of what was pending and published, no occurrence twice, and what is missing is exactly what was dropped |
| `HubFlow.WindowOpens` | logbridge/hub.go:35-42 | every reachable state in which k is retained and not carried starts such a window, with its backlog pending |
| `HubFlow.LosslessIff` | logbridge/hub.go:158-162 | a run drops nothing of k exactly when every publish finds room and every leave finds at most 256 pending; then reads and pending equal what was published |
| `HubFlow.LosslessWindow` | logbridge/hub.go:191-213 | if no publish for k finds 256 entries pending, nothing is lost and reads then pending are exactly the published sequence |
| `HubFlow.SubscribeThenLeave` | logbridge/hub.go:89-122 | subscribing and leaving without reading is the identity on every backlog |
| `HubFlow.DropsCharged` | logbridge/hub.go:158-211 | the observer's count over a run is the drops charged to k plus those of other pipelines, each counted once |
| `HubFlow.OverlapReadsTwice` | logbridge/hub_test.go:419-434 | with two subscribers on one key both receive an entry, and one that leaves discards its copy unobserved |
| `HubSubscriber.SubscriberConservation` | logbridge/hub.go:178-196 | for any subscriber and filter, until it leaves: its reads then its queue are an in-order subsequence of its first queue followed by the published entries it wants (all of them for an empty filter or a hub without keyOf, else those of its key); what is missing is exactly what was published while its queue was at capacity |
| `HubSubscriber.SinceSubscribing` | logbridge/hub.go:80-104 | the same from a Subscribe with any filter on: what comes first is the filter's backlog |
| `HubSubscriber.RefusedIff` | logbridge/hub.go:191-195 | a publish is dropped and notified for a subscriber exactly when it wants the entry and its queue is at capacity |
| `HubSubscriber.ReadsOldestFirst` | webhookcore/logs.go:88-91 | receives take the oldest entries one by one, from an open or a closed channel, until none is left; then an open channel waits and a closed one ends |
| `HubSubscriber.RetainedIff` | logbridge/hub.go:59-78 | after any run a key is retained exactly when it is non-empty, the hub has keyOf, and it was retained and not released since |
| `HubSubscriber.ReleasedKeepsNothing` | logbridge/hub.go:72-78 | until it is retained again a released key has no backlog: who subscribes to it finds an empty channel of capacity 256, who leaves puts nothing back |
| `HubPublish.PublishIsAtomic` | logbridge/hub.go:171-214 | with receives between its sends, in any order of subscribers, a Publish ends in the hub, hands each reader the entries and drops the copies of one atomic Publish |
| `HubDrain.DrainInOrderIff` | logbridge/hub.go:141-154 | receives during the drain lose and repeat nothing, and for pairwise different entries what was read then what goes back is in order exactly when no reader takes an entry after the drain took an older one |
| `HubDrain.OvertakingReorders` | logbridge/hub.go:144-154 | a run in which that happens: the second of two entries is read, and the first goes back to the backlog |
| `HubDrain.UnsubscribeIsAtomic` | logbridge/hub.go:110-126 | otherwise an Unsubscribe with receives inside it is those receives followed by one atomic Unsubscribe |
| `HubDrain.OwnReaderNeverOvertakes` | webhookcore/logs.go:44-45 | a subscriber that is its channel's only reader and unsubscribes itself overtakes nothing |
| `HubConcurrency.CallIsAtomic` | logbridge/hub.go:28-30 | every hub call with receives inside it equals a run of atomic steps, in its final hub and in what each reader took |
| `HubConcurrency.ConcurrentConservation` | logbridge/hub.go:84-214 | conservation, order and exact loss for a retained unshared key, over runs of such calls |
| `HubCopies.EveryCopyAccountedFor` | logbridge/hub.go:84-214 | over any run and any filters, copies offered are those read, queued, in backlogs, discarded on leave, dropped and released; notifications equal dropped copies |
| `HubCopies.DiscardedOnLeaveIff` | logbridge/hub.go:119-125 | unread entries are discarded on leave exactly when the filter is not retained or another subscriber carries it, and without a notification |
| `LogStream.HandleLogs` | webhookcore/logs.go:44-107 | for any schedule of select outcomes and interleaved hub calls: what was written, torn and skipped, and the hub left behind |
| `LogStream.Select` | webhookcore/logs.go:67-107 | one round of the select: what it reads, writes or loses, and whether it leaves |
| `LogRequests.RequestIsRun` | webhookcore/logs.go:44-107 | in any state and for any filter, a connected request is subscribe, the steps its script fixes up to the first event that leaves, and unsubscribe; it writes, tears and skips the entries it received according to how their marshalling and write went |
| `LogRequests.RequestHandles` | webhookcore/logs.go:88-103 | of the entries received on its channel it writes an in-order subsequence, and the others were torn, at most one, or skipped |
| `LogRequests.WritesAllReceived` | webhookcore/logs.go:88-106 | when all marshalling and writes succeed it writes exactly what was received on its channel |
| `LogRequests.UnconnectedLeaves` | webhookcore/logs.go:44-53 | a failed first write is followed by the unsubscribe and nothing else |
| `LogSessions.SessionsConserve` | webhookcore/logs.go:44-107 | over any number of requests in a row on a retained key, lines written then backlog are an in-order subsequence of published entries; the rest was dropped for room, skipped as not marshallable, or torn, at most one per request |
| `LogSessions.LeavingKeepsUnread` | webhookcore/logs.go:67-107 | from any point of its loop, a handler that leaves by disconnect, drain or failed keepalive keeps the newest 256 unread entries, all when no more were waiting; by failed event write, all those but the one in hand |
| `LogSessions.NeverFindsClosed` | webhookcore/logs.go:88-91 | those are the only ways out: until it leaves, the handler never finds its channel closed |
| `LogSessions.FailedFirstWriteLosesNothing` | webhookcore/logs.go:44-53 | a request whose first write fails leaves every backlog as it found it |
| `KeyedLists.KeyedList.Forget` | webhookcore/replay.go:135-138 | one element leaves list and index together; the index still maps exactly the list's keys to their elements |
| `KeyedLists.KeyedList.PushBack` | webhookcore/replay.go:140-141 | a new key joins list and index together, as newest |
| `KeyedLists.KeyedList.EvictOldest` | webhookcore/replay.go:143-153 | the newest capacity records remain; the loop runs at most once and its front always exists |
| `ReplayCaches.ReplayCache.constructor` | webhookcore/replay.go:71-86 | a new cache is empty and coherent, with the given ttl and capacity |
| `ReplayCaches.ReplayCache.CheckAndInsert` | webhookcore/replay.go:122-156 | the answer and the whole new list, with list and index coherent and the list within capacity |
| `ReplayCaches.ReplayCache.Sweep` | webhookcore/replay.go:182-206 | removes the old prefix of the list and its index entries, and ends |
| `ReplayCaches.ReplayCache.EnsureMinTTL` | webhookcore/replay.go:90-97 | a positive ttl below the floor becomes the floor, any other stays |
| `ReplayCaches.SweepIntervalIsLongest` | webhookcore/replay.go:103-114 | the tick interval is the longest within a minute and within half of a positive ttl, and zero exactly for a ttl of one nanosecond |
| `TtlCache.SweepIsFilter` | webhookcore/replay.go:190-205 | on a sorted list, stopping at the first survivor removes exactly the records at or before the cutoff |
| `CacheHistory.ListStaysSorted` | webhookcore/replay.go:125-141 | under a monotone clock the list is sorted by time after any run |
| `CacheHistory.StepSim` | webhookcore/replay.go:122-206 | each operation keeps the list equal to some expired records followed by the latest admissions, and answers as the history does |
| `CacheHistory.ExactRefinement` | webhookcore/replay.go:122-206 | in every run of checks and sweeps each answer is that of a history which keeps no list: latest fresh admission within ttl, fewer than capacity admissions since, except at age ttl with a sweep at that instant |
| `CacheHistory.RefinesFrom` | webhookcore/replay.go:122-206 | the same from any cache that already holds records in order of time |
| `CacheHistory.SweepInvisible` | webhookcore/replay.go:182-206 | deleting a sweep from a run changes no answer at a later time |
| `ReplayProtection.NewCore` | webhookcore/core.go:126-138 | skew defaulted; the cache in use never expires or its ttl covers the acceptance window; a supplied cache keeps its entries and no ttl is lowered |
| `ReplayProtection.KeyDetermines` | webhookcore/replay.go:118-123 | a composite key determines stamp and signature, as a stamp has no dot |
| `ReplayProtection.SecondAttemptIff` | webhookcore/middleware.go:62-64 | from any starting cache, a recorded pair is let through again inside its window exactly when capacity admissions followed, or its age is exactly ttl and a sweep ran at this instant, or the cache brought the record along and it is older than the ttl |
| `ReplayProtection.NoDoubleAcceptance` | webhookcore/core.go:131-138 | from any starting cache, also a supplied one holding records: two acceptances of one pair have at least capacity acceptances between them, or the ttl is at its floor, they are exactly ttl apart and a sweep ran at the instant of the second |
| `ReplayProtection.ReplayRefused` | webhookcore/replay.go:116-121 | without either of those a second attempt is refused |
| `ReplayProtection.BoundarySweepReadmits` | webhookcore/replay.go:199-201 | a run in which a pair is accepted twice, for every window and capacity: the sweep at age ttl |
| `DedupCaches.DedupKeyInjective` | webhookcore/dedup.go:68-72 | keys never collide across the field boundary for scopes without NUL |
| `DedupCaches.DedupKeyCollidesIff` | webhookcore/dedup.go:68-72 | two pairs share a key exactly when they are equal or one scope goes on, after a NUL, into the other pair's id |
| `DedupCaches.NulScopeCollides` | webhookcore/dedup.go:11-12 | any pair whose scope holds NUL shares its key with a pair of a shorter, NUL-free scope |
| `DedupCaches.DedupCache.constructor` | webhookcore/dedup.go:53-66 | a new cache is empty and coherent, with the given ttl and capacity |
| `DedupCaches.DedupCache.CheckAndRecord` | webhookcore/dedup.go:79-117 | the answer and the whole new list; an empty message id is never a duplicate and records nothing |
| `DedupCaches.DedupCache.Rollback` | webhookcore/dedup.go:120-135 | exactly the message's record is gone; an empty message id is a no-op |
| `DedupCaches.RollbackUndoes` | webhookcore/dedup.go:118-120 | rolling back a fresh record makes the message fresh again and leaves the other records, except for the oldest when the cache was full |
| `DedupRuns.OptOutInvisible` | webhookcore/dedup.go:80-82 | deleting every call with an empty message id from any run changes no other answer and not the final list |
| `DedupRuns.DuplicateMeansStanding` | webhookcore/dedup.go:74-117 | in any run a duplicate was recorded fresh before, not rolled back since, and is within the ttl; and such a message is a duplicate unless a full cache of fresh records followed it |
| `DedupProtocol.AckImpliesDelivered` | webhookcore/dedup.go:9-20 | in every run under the per-scope lock every ack follows a successful delivery of that very message |
| `DedupProtocol.AcksImplyDeliveredIff` | webhookcore/dedup.go:9-20 | with or without the lock, every ack of a run follows a delivery exactly when no retry was answered while its message was in flight and undelivered |
| `DedupProtocol.ExclusiveMessagesSuffice` | webhookcore/dedup.go:15-18 | without the lock, one client per message at a time is enough, also when clients of one scope overlap |
| `DedupProtocol.UnlockedRetryIsLost` | webhookcore/dedup.go:15-18 | a run without the lock in which a retry is acked although no delivery ever succeeds, for every message and cache setting |
| `DedupSpacing.DeliveriesAreApart` | webhookcore/dedup.go:86-116 | in every such run two deliveries of one message were recorded more than ttl apart, or with capacity fresh records strictly between them |
| `DedupSpacing.UnboundedDeliversOnce` | webhookcore/dedup.go:51-53 | with expiry and cap disabled no message is delivered twice |
| `Utf8.DecodeEncoded` | logbridge/bridge.go:356-358 | decoding undoes encoding for every scalar value, whatever follows |
| `Utf8.Truncate` | logbridge/bridge.go:359-371 | the loop backs off to the cut the specification names |
| `Utf8.TruncationIsLongestValidPrefix` | logbridge/bridge.go:356-371 | of a valid string the result is its longest valid prefix within the limit, losing at most three bytes of the limit |
| `Utf8.TruncationOfBytes` | logbridge/bridge.go:359-371 | on any bytes, valid or not: the longest prefix within the limit with no continuation byte behind it, or nothing |
| `FrameCodec.DecodeEncodedText` | frames/frames.go:35-39 | a JSON string with all its escapes reads back, whatever follows on the line |
| `FrameCodec.FrameRoundTrip` | frames/frames.go:35-48 | decoding an encoded frame gives back the frame, with omitted empty fields |
| `FrameCodec.EncodedFrameIsOneLine` | frames/frames.go:41-54 | an encoded frame holds no control byte, so no newline and no final carriage return |
| `FrameCodec.PlainFrame` | frames/frames.go:35-39 | a frame without special characters is the JSON object with the three field names in this order, empty optional fields left out |
| `FrameCodec.ShortEscapes` | frames/frames.go:45 | the two-character escapes of quote, backslash and five control characters |
| `FrameCodec.HtmlEscapes` | frames/frames.go:45 | less-than, greater-than and ampersand are written as escapes |
| `Frames.Write` | frames/frames.go:44-59 | refuses exactly the lines over the limit and then leaves the stream unchanged; otherwise appends one whole line, or fails on a short write |
| `Frames.Reader.constructor` | frames/frames.go:68-78 | a reader starts at the front of its stream, with the accepted types |
| `Frames.Reader.Next` | frames/frames.go:84-103 | the loop returns what the specification of one call says, and leaves unread exactly the rest |
| `Frames.ReadAllIsRepeatedNext` | frames/frames.go:84-103 | reading a whole stream is calling Next until it stops yielding frames |
| `Frames.EndIsFinal` | frames/frames.go:98-103 | once the stream has ended, or failed on a line, every further Next says the same again |
| `Frames.ScanWritten` | frames/frames.go:23-27 | no line Write emits trips the reader's limit or loses a byte |
| `Frames.RefusedIffUnreadable` | frames/frames.go:23-27 | Write refuses exactly the frames whose line the reader would fail on |
| `Frames.StreamRoundTrip` | frames/frames.go:44-103 | any frames written, with any skippable lines in between, are read back as exactly the accepted frames in order, then the end of the stream |
| `Frames.UnendedLastLine` | frames/frames.go:84-95 | a last line without a newline is read like any other |
| `Frames.CarriageReturnDropped` | frames/frames.go:84-90 | a frame whose line ends in carriage return and newline is read all the same |
| `Frames.OversizedLineStops` | frames/frames.go:80-83 | a line over the limit is a hard stop: all frames before it arrive and none after it |
| `Frames.CodecRoundTrips` | frames/frames.go:45-87 | the codec's own decoder meets what the stream theorem asks of a decoder |
| `Bridges.Bridge.constructor` | logbridge/bridge.go:74-86 | a bridge keeps its configuration and starts with the configured redactor |
| `Bridges.Bridge.BridgeLine` | logbridge/bridge.go:97-137 | a line publishes at most one entry and causes at most the one hook call for it; the entry carries the clock reading and the key, its content went through the masking, and a stderr or unparsable line is masked whole |
| `Bridges.NothingLeaks` | logbridge/bridge.go:97-134 | what masking never lets through is never published, from any line of any worker |
| `BridgeEntries.TextEntry` | logbridge/bridge.go:144-155 | a model response becomes a text entry with its content and model, or nothing when blank |
| `BridgeEntries.BlankIff` | logbridge/bridge.go:146-149 | blank means that every character is white space |
| `BridgeEntries.ThinkingEntry` | logbridge/bridge.go:157-164 | thinking keeps its content |
| `BridgeEntries.ToolCallEntry` | logbridge/bridge.go:166-185 | a tool call becomes its name and arguments cut to 200 bytes, marked when it was not dispatched, with its id |
| `BridgeEntries.UsageEntry` | logbridge/bridge.go:187-210 | each of the four token counts goes to its own field without its fraction, with the model, and the cost if it is positive |
| `BridgeEntries.StateEntry` | logbridge/bridge.go:212-232 | awaiting_human is surfaced as awaiting, or as idle, or not at all; any other state as a summary |
| `BridgeEntries.ContextLimitEntry` | logbridge/bridge.go:234-238 | a context limit is surfaced as a summary |
| `BridgeEntries.ErrorEntry` | logbridge/bridge.go:240-249 | an error becomes a stderr entry that names the suspected upstream defect, if any |
| `BridgeEntries.WorkingEntry` | logbridge/bridge.go:251-256 | model requests and user input show as working when run states are surfaced |
| `BridgeEntries.TranscriptOnly` | logbridge/bridge.go:258-260 | tool results, tool repairs and verifications are not published |
| `BridgeEntries.ExtraEntry` | logbridge/bridge.go:262-271 | an unknown kind is published as MapExtra maps it, masked and stamped, or not at all |
| `Bridges.Bridge.Publish` | logbridge/bridge.go:282-288 | the hub gets the entry; the hook is called unless the entry is of type stderr |
| `Bridges.Bridge.SetRedactor` | logbridge/bridge.go:91-93 | lines bridged afterwards are masked with the new set |
| `Bridges.FlagIsLastProgress` | logbridge/bridge.go:273-288 | after any lines the flag of a key is the awaiting bit of the last non-stderr entry published for it |
| `Bridges.NoiseNeverTouchesFlags` | logbridge/bridge.go:275-281 | inserting or deleting a raw stderr, unparsable or error line anywhere changes no hook call, for every configuration and MapExtra |
| `Bridges.ArmsIff` | logbridge/bridge.go:142-271 | a line arms the flag exactly when it is a state_change whose state is awaiting_human on a bridge that surfaces it, or an unknown kind for which MapExtra returns an awaiting non-stderr entry |
| `Bridges.HookHearsTheWorkersKey` | logbridge/bridge.go:27-39 | the hook hears the worker's own key, unless MapExtra fills fields the key leaves empty |
| `Bridges.ToolCallContentValid` | logbridge/bridge.go:166-185 | tool calls of valid strings are published as valid text of at most 200 bytes |
| `Registries.RedactorRegistry.constructor` | logbridge/registry.go:36-44 | an empty set is installed on registry and bridge at once |
| `Registries.RedactorRegistry.AddSessionKey` | logbridge/registry.go:51-61 | the key joins the session's others, and registry and bridge mask the new composed set; inside the call each masks the old or the new one, and the bridge is never ahead |
| `Registries.RedactorRegistry.RemoveSessionKey` | logbridge/registry.go:67-77 | all keys of the session go together, and both mask the new composed set; inside the call each masks the old or the new one, and the bridge is never ahead |
| `Registries.RedactorRegistry.Rebuild` | logbridge/registry.go:83-92 | whatever the map order, registry and bridge hold the same set, the union over all sessions; between its two stores only the registry has it |
| `Registries.RedactorRegistry.RedactLine` | logbridge/registry.go:94-102 | a line is masked with the secrets of all live sessions, and inside an add or remove with the old or the new set |
| `Registries.ComposedIff` | logbridge/registry.go:45-77 | after any adds and removes a key is masked exactly when it is non-empty and some session added it after that session's last removal |

## Left out

- Channels are queues inside the hub object: a reader's handle on its channel is its subscriber id, and the aliasing of one channel by hub and reader is not modelled.
- Goroutine scheduling, blocking receives and the ticker: a run is any interleaving, and a receive that would wait is a step that does nothing.
- `HubFlow.WindowConservation`: steps are atomic; receives inside a call are covered by `HubConcurrency.ConcurrentConservation`, whose hypothesis that no reader overtakes a drain is the exact condition of `HubDrain.DrainInOrderIff`.
- `LogStream.HandleLogs`: the response headers, the flusher and the 500 answer for a writer that cannot stream are not modelled; the outcome of each write and of each marshalling is part of the schedule.
- Lists and indexes hold records by value: an element's identity is its key, which is unique in the list.
- `CacheHistory.RefinesFrom`: the ttl is fixed during a run; raising it ends one run and starts another from the cache as it is.
- Saturation of time differences beyond 292 years and overflow of durations.
- `ReplayProtection.NoDoubleAcceptance`: signature checking itself is not part of this model; a request carries whether it is genuine, and its stamp is checked against the window at the clock reading of the lookup. The protocol library's default skews are parameters of `NewCore`.
- The rest of `NewCore`, and `health.go`, `images.go`, `helpers.go`, `recorder.go`, `revision.go`: request and response wiring.
- `Frames.StreamRoundTrip`: it holds for any decoder that reads back what the encoder writes; the full JSON grammar (other key orders, white space, duplicate or differently cased keys) is not modelled, nor strings that are not valid UTF-8.
- The scanner is modelled as line splitting with its size limit and removal of a final carriage return; its buffering, and errors of the underlying reader, are not.
- What a redactor does to text: it is its set of secrets, before the library drops short ones, and masking is a parameter. No claim is made about masking after truncation.
- The conversion of JSON numbers outside the range of int64.
- `llmproxy`, `taskskills` and `metrics`: library, network and registration work.
