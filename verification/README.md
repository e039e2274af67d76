# SatoshiNet CoreNode messaging: a verified model

This project models the part of a SatoshiNet CoreNode that carries Direct messages between
accounts, and the bookkeeping of the server and RPC layer around it, and proves what that code is
there to guarantee.

**Messages.** A wallet submits a signed Direct message to the core its account is bound to. The core
accepts it under the account's next sequence number, stores it as a durable job, and sends it to the
recipient's core, directly or through the bootstrap node. The recipient's core reserves a replay key,
appends to the mailbox, commits the key and acknowledges. The sender's core closes the job on the
ack, and until then retries it wherever the recipient is bound now. `Protocol.dfy` is this protocol as
a transition system in which packets are lost, doubled, reordered and injected, accounts move, jobs
expire and cores restart, and in which every core has its own clock and its own view of the bindings.
Its main theorem, instantiated with the real codec in `DirectDelivery.dfy`: a job recorded as OK has
been appended to the mailbox of the core that acknowledged it.

| file | what it models |
|---|---|
| `Framing.dfy`, `MessageCodec.dfy`, `Signing.dfy` | varints, words and fields; envelope, ack, Direct message, topic fan-out, stored record; what cores sign |
| `AcceptanceStore.dfy`, `AcceptanceDb.dfy` | the acceptance store in memory, and the one over database buckets of encoded bytes |
| `ReplayWindow.dfy` | the replay window: a map, an ordered list, a lifetime and a capacity |
| `Retry.dfy` | re-resolving targets, retry advice, one retry pass |
| `Protocol.dfy`, `DirectDelivery.dfy` | all of it together, over all runs |
| `DeliverOnce.dfy`, `DurableDelivery.dfy` | how far apart one message is delivered twice; the protocol over database stores |
| `Exchange.dfy` | what cores answer and send, packet by packet, and how lost packets are made good |
| `Routing.dfy` | the three allowed paths of a directed notification |
| `RateLimiter.dfy`, `QueryGuard.dfy` | admission limits, and authorization of signed queries |
| `CheckpointCache.dfy` | checkpoint blocks, and the filter-header cache behind getcfcheckpt of BIP 157 |
| `PeerRegistry.dfy`, `PeerEvents.dfy` | peer lists, group counts, validator routes, over every order of events |
| `WsQueues.dfy`, `WsSubscriptions.dfy` | websocket notification queues and watch indexes |
| `GasSearch.dfy` | the gas-limit estimate |

Code that changes things step by step is a class with methods (or a method with loops) proved
against specification functions; the properties are proved of those functions, over all inputs and
all runs. Times are integers, in nanoseconds. Machine words are written out: 64-bit sums wrap in the
limiter, unsigned milliseconds are read as signed ones in retry advice and query expiry, and
doubling wraps in the gas search.

Where a wished-for property does not hold of the code, the model keeps the code, states exactly when
the property holds, and gives a case where it does not:

- A stored record is readable again if and only if its target and data are within the reader's
  limits, which the writer does not check (`RecordRoundTrip`).
- The two acceptance stores answer alike if and only if no charge callback meets an exhausted
  sequence (`AcceptRefines`).
- Where packets no core accepted are injected, a recorded OK means delivery exactly for accounts that
  sign no number and id for two recipients: enough by `OkMeansDelivered`, needed by
  `TwoRecipientsMislead`.
- A refreshed job goes to the recipient's current core if and only if it was not closed, with
  another target, while the pass was under way (`RefreshTarget`, `ClosedJobKeepsTarget`).
- Retry advice is kept as given if and only if it fits the duration type (`WaitExact`).
- The limiter's 64-bit test is the intended one on everything a window can hold if and only if the
  most a window can hold and one more call stay below 2^64 (`TestExactIffSound`); other limits are
  overrun by some run (`UnsoundOverrun`).
- The checkpoint cache stays trustworthy if and only if a request does not grow it in place, for
  another chain, with an index that gives out half-way (`CacheOkIff`, `SpoiledAnswer`,
  `SpoilsOccurs`).
- An answer still in a send queue stays what it was if and only if no request overwrites one of the
  entries it refers to with another header (`QueuedAnswerIff`, `QueuedAnswerRewritten`).
- The gas search ends for every start if and only if the maximum is at most 2^62
  (`DoublingEndsIff`, `StuckProbe`); with a larger one it ends for every call that needs at most 2^62
  (`SmallNeedSettles`).
- A core appends one message twice within the window's lifetime only after a restart or an eviction
  (`AppendsApart`, `RestartForgets`).

## Model

| member | source | states |
|---|---|---|
| `DirectDelivery.DirectDeliveryIsSafe` | message_manager.go:261-463 | Over every run of the protocol with the real codec: a job recorded as OK at a core is a message its account signed and this core accepted under that number, and the core that acknowledged it has its replay key, which names recipient, sender and message id, in the mailbox. |
| `DirectDelivery.WireContract` | message_codec.go:71-215 | The real codec meets everything the protocol relies on: what is put on the wire is read back as the same thing and as nothing else, and ack payloads are injective. |
| `DurableDelivery.DurableOkMeansDelivered` | message_acceptance_db.go:144-382 | The same guarantee for cores on database stores: the buckets a core's calls make over any run decode to its jobs, and a record that reads OK is a message its account signed and this core accepted, appended by the core that acknowledged it. |
| `DurableDelivery.StepServed` | message_manager.go:261-463 | Every store call of the protocol with the real codec is one the database serves as the memory does, or an ack that names no job. |
| `DurableDelivery.CallTracks` | message_acceptance_db.go:162-382 | Such a call leaves the buckets tracking the store and gets a reply the memory could give; an ack that names no job is refused by both. |
| `DurableDelivery.StepStore` | message_manager.go:261-463 | Every action changes the store of a core by the one call it makes on it, and not otherwise. |
| `Protocol.OkMeansDelivered` | message_manager.go:261-463 | End-to-end safety for any codec that meets the contract, on a network that loses, doubles, reorders and injects, under retries, pruning, rebinding, unsynchronised clocks and restarts: the job is a message this core accepted, and the core that acknowledged it appended it. |
| `Protocol.TwoRecipientsMislead` | message_manager.go:330-463 | For any two messages signed under one number and id for different recipients of one core: a run that injects one while the other is under way ends with a job recorded as OK and nothing appended for its recipient. |
| `Protocol.NoEarlyOk` | message_manager.go:344-394 | Every OK ack a core ever signs is for a message it had appended before. |
| `Protocol.OneDeliveryPerKey` | message_direct_replay.go:54-96 | In every reachable state at most one delivery per replay key is under way on a core. |
| `DeliverOnce.AppendsApart` | message_direct_replay.go:54-121 | In every run, two appends of one key on a core that neither restarts nor drops the key for capacity in between lie at least the window's lifetime apart. |
| `DeliverOnce.StepGuards` | message_manager.go:330-394 | After an append, no action but a restart or an eviction opens the way for another append of the key before the lifetime is over. |
| `DeliverOnce.RestartForgets` | message_direct_replay.go:54-72 | After a restart any key is granted again at once. |
| `Protocol.NothingInvented` | message_manager.go:261-394 | Whatever is in a mailbox in any reachable state was signed by its sender and, where nothing is injected that no core accepted, accepted by a core before. |
| `Protocol.OneMessagePerNumber` | message_manager.go:76-116 | Over every run a core accepts at most one message of an account under each sequence number, and only signed ones. |
| `Protocol.StepMailbox` | message_manager.go:344-394 | Every action keeps it that what is in a mailbox was signed by its sender and, on an honest network, accepted before. |
| `Protocol.StepQuiet` | message_manager.go:344-394 | No action but a successful append puts anything into a mailbox. |
| `Protocol.DeliveryCompletes` | message_manager.go:261-463 | Cores that can exchange a message, or one core with both accounts, have a run that ends with the job OK and exactly this message added to the mailboxes. |
| `Protocol.AnswerEnds` | message_manager.go:422-463 | From an appended delivery, completing it and receiving its ack close the sender's job as OK and touch no mailbox. |
| `Exchange.LostMessageRecovers` | message_retry.go:54-86 | A lost message is made good: whenever two cores can exchange it, submitting it, losing it, a retry pass and a delivery form a possible run that ends with the job OK and the message in the mailbox. |
| `Exchange.RealMessageRecovers` | message_retry.go:54-86 | The same with the real codec, without further conditions. |
| `Exchange.LostAckRecovers` | message_manager.go:344-349 | A lost OK is made good without a second delivery: after the completed delivery, if the full window did not drop its key at once, a retry pass is answered from the replay window, the job is closed, and no mailbox changes. |
| `Exchange.AbandonedRecovers` | message_manager.go:354-392 | A failed delivery is made good by the next pass, even if its answer is lost. |
| `Exchange.RetrySends` | message_retry.go:69-85 | In every run, retrying a listed job sends exactly one packet, its data to where it is bound, and none exactly if it is unroutable. |
| `Exchange.DuplicateAnswered` | message_manager.go:344-349 | A message delivered within the window's lifetime is answered OK and not delivered again. |
| `Exchange.InProgressAnswered` | message_manager.go:350-352 | One that is being delivered is answered retryable, in 100 ms. |
| `Exchange.MovedAnswered` | message_manager.go:341-343 | One whose recipient lives elsewhere is answered retryable, and the window is not asked. |
| `Exchange.StrangerIgnored` | message_manager.go:335-340 | One its account did not sign, or that does not come from the sender's core, is dropped without an answer. |
| `Exchange.AbandonAnswers` | message_manager.go:354-392 | A failed delivery is answered retryable with its reason and advice, and its key is free again. |
| `Exchange.AckPosted` | message_manager.go:422-443 | An ack that can be signed and written is recorded as signed and sent, once, to its target. |
| `Exchange.AckUnsent` | message_manager.go:422-434 | Without a target, a payload or a signature nothing is sent. |
| `Exchange.StrangeAckIgnored` | message_manager.go:445-463 | An ack its source did not sign, or one for a fan-out, closes no job. |
| `Exchange.RetryAckKeepsOpen` | message_manager.go:445-463 | A retryable ack leaves the job open for the next pass. |
| `Exchange.SubmitRefused` | message_manager.go:261-284 | A message that is unsigned, of an account not bound here, for an unbound recipient or too large leaves no trace. |
| `Exchange.SubmitAgain` | message_manager.go:285-296 | Submitting again sends an open job again, to where the recipient lives now, and a closed one not at all; it is accepted once only. |
| `Exchange.SubmitFiles` | message_manager.go:261-296 | The first time, it is filed as an open job and sent to its recipient's core. |
| `Exchange.RestartKeepsJobs` | message_retry.go:51-53 | A restart keeps a core's jobs and nothing of what was under way. |
| `Protocol.StepInv` | message_manager.go:261-463 | Every action of every core and of the network keeps the protocol invariant. |
| `Protocol.RunInv` | message_manager.go:261-463 | Every possible run keeps it. |
| `Protocol.SubmitInv` | message_manager.go:261-296 | Submitting, freshly or again, keeps the invariant: what is sent is a message filed at this core. |
| `Protocol.ReceiveDirectInv` | message_manager.go:330-394 | Receiving a Direct message keeps it: no OK ack without an append. What is answered in each case state `DuplicateAnswered`, `InProgressAnswered`, `MovedAnswered` and `StrangerIgnored`. |
| `Protocol.ReceiveAckInv` | message_manager.go:445-463 | Applying a verified ack keeps it: OK is recorded only for a delivery of the job named. |
| `Protocol.RetryInv` | message_retry.go:13-49 | Retrying a job listed earlier keeps it, whatever happened to the store since. What is sent states `RetrySends`. |
| `Protocol.SendAckInv` | message_manager.go:422-443 | Signing and sending an ack keeps it, provided an OK is for a delivery that happened. |
| `Protocol.OkAckMeansDelivered` | message_crypto.go:17-54 | A verified OK ack on an unforgeable network names a delivery on its source core. |
| `Protocol.DeliveryKeyInjective` | message_direct_replay.go:44-49 | The replay key determines recipient, sender and message id. |
| `AcceptanceStore.SequenceGapFree` | message_manager.go:76-162 | Over any run of Accept, MarkAck and prune from an empty store, the fresh sequence numbers of an account are exactly 0, 1, ..., next-1, in order. |
| `AcceptanceStore.FreshIdsConsecutive` | message_manager.go:76-162 | From any store: consecutive from the number it had to just below the number it has; no gap, repetition or wrap-around. |
| `AcceptanceStore.RunKeepsStoreOk` | message_manager.go:76-162 | Over any run: records are under their own key, below next, and no two of a sender share a number. |
| `AcceptanceStore.AcceptKeepsStoreOk` | message_manager.go:76-116 | Accept keeps the store well formed in each of its branches. |
| `AcceptanceStore.MarkAckKeepsStoreOk` | message_manager.go:118-133 | So does MarkAck, whether it closes, reopens or refuses. |
| `AcceptanceStore.ReofferNeverFresh` | message_manager.go:76-116 | Offering a stored job again after any run is never a fresh acceptance, never charges, never advances a sequence, even if the job was pruned meanwhile. |
| `AcceptanceStore.JobDurable` | message_manager.go:76-162 | After any run a stored job is still there, the same message under the same number, if and only if no prune of the run came when it had expired. |
| `AcceptanceStore.GoneForGood` | message_manager.go:76-116 | A job that is gone does not come back, whatever is offered, even under its message id. |
| `AcceptanceStore.ExpiresExact` | message_acceptance_expiry.go:21-43 | A job expires exactly 24 hours after the microseconds its message id begins with, in big-endian hexadecimal digits, if it is a Direct job and they are within the clock's range; other jobs never expire. |
| `AcceptanceStore.FirstDaySafe` | message_acceptance_expiry.go:21-43 | A job survives every run in its first 24 hours, and a job of another kind every run. |
| `AcceptanceStore.DayOver` | message_manager.go:150-162 | The first prune after that drops a Direct job, and frees no number. |
| `AcceptanceStore.AckExact` | message_manager.go:118-133 | An ack from the job's target under its number is recorded, leaves the job pending exactly if it is neither OK nor a rejection, so that a later retryable one reopens it, and changes nothing else. |
| `AcceptanceStore.StrayAck` | message_manager.go:118-133 | An ack for no stored job, another number or another core changes nothing and is refused: another core as malformed, the others as out of sequence; every other ack is taken. |
| `AcceptanceStore.FreshFiled` | message_manager.go:93-116 | A new message is filed as offered and pending, uses up its number alone, and is charged exactly if a charge is asked for. |
| `AcceptanceStore.RepeatAnswered` | message_manager.go:76-116 | A stored message id is answered from the store without a charge, exactly if digest and number agree; no refusal stores anything, and only a refused charge was charged. |
| `AcceptanceStore.StoredJobsDistinct` | message_manager.go:135-148 | Different keys hold different jobs, so the list of pending jobs has no repetition. |
| `AcceptanceStore.KeyInjective` | message_manager.go:66-68 | The store key determines sender and message id. |
| `AcceptanceStore.MemoryStore.NextSenderMsgId` | message_manager.go:70-74 | The number returned is the one under which a new message id is freshly accepted, unless the sequence is exhausted or the charge fails, and under no other. |
| `AcceptanceStore.MemoryStore.AcceptMessage` | message_manager.go:76-116 | The maps, the answer and whether a charge was made are those of the specification. |
| `AcceptanceStore.MemoryStore.Acknowledge` | message_manager.go:118-133 | Likewise for MarkAck, which `AckExact` and `StrayAck` determine. |
| `AcceptanceStore.MemoryStore.Pending` | message_manager.go:135-148 | Lists every unfinished job exactly once. |
| `AcceptanceStore.MemoryStore.PruneExpiredDirect` | message_acceptance_expiry.go:21-43 | The loop over the map leaves exactly the jobs that are not expired, and which these are `ExpiresExact` states. |
| `AcceptanceDb.RunRefines` | message_acceptance_db.go:144-382 | On every sequence of calls with storable inputs the buckets decode to the in-memory maps, and every sequence of replies, sorted listings included, is one the in-memory store could have given. |
| `AcceptanceDb.RepliesAgree` | message_acceptance_db.go:144-382 | Any other replies the in-memory store could have given differ in the order of listed jobs alone. |
| `AcceptanceDb.ListingDetermined` | message_acceptance_db.go:310-343 | Whatever was called since the buckets were empty, one listing is possible only: every unfinished job once, in order, however the bucket is read and the list sorted. |
| `AcceptanceDb.AcceptRefines` | message_acceptance_db.go:162-269 | Accept through encoded buckets: the same resulting maps always, and the same answer if and only if no charge meets an exhausted sequence. |
| `AcceptanceDb.MarkAckRefines` | message_acceptance_db.go:271-308 | MarkAck: the same maps and the same error. |
| `AcceptanceDb.PruneRefines` | message_acceptance_db.go:345-382 | Prune: the same maps. |
| `AcceptanceDb.ListedOnce` | message_acceptance_db.go:310-343 | In a well-formed store a listing has each unfinished job exactly once, one per account number. |
| `AcceptanceDb.UnfinishedCount` | message_acceptance_db.go:322-331 | In any store a listing has an unfinished job as often as there are keys that hold it. |
| `AcceptanceDb.SortedUnique` | message_acceptance_db.go:336-341 | The order by sender and number leaves one way only to list jobs of which no two share both; pending jobs are such by `ListedOnce`. |
| `AcceptanceDb.SortJobsSorts` | message_acceptance_db.go:336-341 | Sorting yields a sorted permutation. |
| `AcceptanceDb.ListingOrder` | message_acceptance_db.go:336-341 | In a listing the jobs of one sender come by number, and senders by the first byte in which they differ. |
| `AcceptanceDb.BytesLessIff` | message_acceptance_db.go:336-341 | The string order: the first byte that differs decides, and a proper prefix comes first. |
| `AcceptanceDb.CounterExact` | message_acceptance_db.go:133-142 | A counter is eight big-endian bytes; anything else counts as zero. |
| `AcceptanceDb.MalformedRefused` | message_acceptance_db.go:162-190 | What the database could not file, or a record it cannot read, is refused without a charge or a change. |
| `AcceptanceDb.MalformedAckRefused` | message_acceptance_db.go:271-274 | An ack without a valid sender, message id, core or status is refused and changes nothing. |
| `AcceptanceDb.UnreadableStopsPrune` | message_acceptance_db.go:345-382 | One unreadable record keeps anything from being pruned. |
| `AcceptanceDb.DatabaseStore.AcceptMessage` | message_acceptance_db.go:162-269 | The buckets and the answer are those of the specification, through decode, retarget or insert, encode and put. |
| `AcceptanceDb.DatabaseStore.Acknowledge` | message_acceptance_db.go:271-308 | Likewise for MarkAck, refined by the memory store's, with `MalformedAckRefused` for what it refuses beyond. |
| `AcceptanceDb.DatabaseStore.Pending` | message_acceptance_db.go:310-343 | From any buckets: the unfinished job under every key, sorted by sender and number, or an error exactly if a record is unreadable. |
| `AcceptanceDb.DatabaseStore.PruneExpiredDirect` | message_acceptance_db.go:345-382 | Collects the expired keys and deletes exactly those (`ExpiresExact`), or none (`UnreadableStopsPrune`). |
| `AcceptanceDb.DatabaseStore.NextSenderMsgId` | message_acceptance_db.go:133-160 | Reads the eight-byte counter; 0 where there is none, or for an invalid account. |
| `Framing.UvarintRoundTrip` | message_codec.go:17-61 | Reading a written varint, followed by anything, gives the value and leaves the rest. |
| `Framing.UvarintMinimal` | message_codec.go:26-36 | Padded varints are accepted; the bytes read are the writer's own exactly if the last of them is not a padding zero, and longer otherwise. |
| `Framing.UvarintLocal` | message_codec.go:26-36 | Reading looks only at what it consumes and never yields more than 64 bits. |
| `Framing.UvarintInjective` | message_codec.go:17-22 | Streams that begin with written varints and are equal begin with the same value. |
| `Framing.WordRoundTrip` | message_codec.go:43-55 | Big-endian words are read back. |
| `Framing.FieldRoundTrip` | message_codec.go:17-41 | A field within the limit is read back; one over it is refused. |
| `Framing.FieldInjective` | message_codec.go:17-22 | Concatenated fields are split in one way only. |
| `Framing.FieldLocal` | message_codec.go:26-36 | Reading a field is unaffected by what follows, respects the limit, and what it read is written no longer. |
| `Framing.Reader.ReadUvarint` | message_codec.go:26-36 | The byte-by-byte loop yields exactly the specified value and leaves exactly the unread bytes, and fails exactly if the specification does. |
| `Framing.Reader.ReadField` | message_codec.go:26-36 | Likewise for a length-prefixed field with a limit. |
| `Framing.Reader.ReadWord` | message_codec.go:49-55 | Likewise for a word. |
| `MessageCodec.EnvelopeRoundTrip` | message_codec.go:71-120 | Every envelope that can be written is read back, and is the same one if and only if an unsigned type carries no signature. |
| `MessageCodec.EnvelopePrefixFree` | message_codec.go:92-120 | No accepted envelope is a strict prefix of another. |
| `MessageCodec.EnvelopeReencodes` | message_codec.go:71-120 | What is accepted can be written again, no longer than it came, and is read as the same value. |
| `MessageCodec.MarshalEnvelope` | message_codec.go:71-90 | Appending to a buffer writes the specified bytes, with every refusal. |
| `MessageCodec.UnmarshalEnvelope` | message_codec.go:92-120 | The moving cursor accepts and returns exactly what the specification does. |
| `MessageCodec.AckRoundTrip` | message_codec.go:138-215 | Every ack that can be written is read back. |
| `MessageCodec.AckPrefixFree` | message_codec.go:171-215 | No accepted ack is a strict prefix of another. |
| `MessageCodec.AckReencodes` | message_codec.go:138-215 | What is accepted can be written again and is read as the same ack. |
| `MessageCodec.AckBytesInjective` | message_codec.go:138-165 | Equal ack bytes have equal fields. |
| `MessageCodec.MarshalAck` | message_codec.go:138-169 | Writes the specified bytes, with every refusal. |
| `MessageCodec.UnmarshalAck` | message_codec.go:171-215 | Accepts and returns exactly what the specification does. |
| `MessageCodec.DirectRoundTrip` | wire/message_service.go:146-201 | A Direct message is read back. |
| `MessageCodec.DirectPrefixFree` | wire/message_service.go:171-201 | No accepted Direct message is a strict prefix of another. |
| `MessageCodec.FanoutRoundTrip` | message_codec.go:236-310 | Every well-formed topic fan-out can be written and is read back, recipients in order. |
| `MessageCodec.FanoutFits` | message_codec.go:236-262 | A well-formed fan-out is never refused for its size. |
| `MessageCodec.FanoutPrefixFree` | message_codec.go:264-310 | No accepted fan-out is a strict prefix of another. |
| `MessageCodec.FanoutReencodes` | message_codec.go:236-310 | What is accepted can be written again and is read as the same fan-out. |
| `MessageCodec.MarshalFanout` | message_codec.go:236-262 | Writes the specified bytes, recipients in a loop. |
| `MessageCodec.UnmarshalFanout` | message_codec.go:264-310 | Accepts and returns exactly what the specification does. |
| `MessageCodec.RecordRoundTrip` | message_acceptance_db.go:37-99 | A stored job is readable again if and only if its target and data are within the reader's limits; if it is readable, it is the same job. |
| `MessageCodec.RecordPrefixFree` | message_acceptance_db.go:57-99 | No readable record is a strict prefix of another. |
| `MessageCodec.MarshalRecord` | message_acceptance_db.go:37-55 | Writes the specified bytes, with every refusal. |
| `MessageCodec.UnmarshalRecord` | message_acceptance_db.go:57-99 | Accepts and returns exactly what the specification does. |
| `MessageCodec.EnvelopeLayout` | message_codec.go:71-90 | Where every field of an envelope stands, and that fan-outs alone carry a signature. |
| `MessageCodec.AckFieldsLayout` | message_codec.go:152-165 | Where every field of an ack stands. |
| `MessageCodec.DirectLayout` | wire/message_service.go:157-169 | Where every field of a Direct message stands. |
| `MessageCodec.RecordLayout` | message_acceptance_db.go:41-54 | Where every field of a stored record stands. |
| `Signing.AckPayloadInjective` | message_crypto.go:17-31 | Equal ack payloads have equal source, target and every ack field but the signature. |
| `Signing.DeliveryPayloadInjective` | message_topic_auth.go:12-24 | Equal topic-delivery payloads have equal source, target, type and body. |
| `Signing.DomainsSeparate` | message_topic_auth.go:12-24 | No ack payload is a topic-delivery payload. |
| `Signing.AckPayloadIff` | message_crypto.go:17-31 | There is an ack payload exactly if both cores are named and the ack can be written, with all conditions for that. |
| `Signing.DeliveryPayloadIff` | message_topic_auth.go:12-24 | There is a topic-delivery payload exactly if both cores are named and it is a fan-out with a body. |
| `ReplayWindow.RunInv` | message_direct_replay.go:54-121 | Over every run with a clock that does not go back: the list holds exactly the committed entries, once each, in order of expiry, and no more than the capacity. |
| `ReplayWindow.AtMostOneInFlight` | message_direct_replay.go:54-96 | Over every run, grants minus finishes of a key are one if it is reserved and zero otherwise. |
| `ReplayWindow.ReservedUntilFinish` | message_direct_replay.go:54-72 | A reserved key answers "in progress" to every further begin until its finish. |
| `ReplayWindow.NoGrantBeforeExpiry` | message_direct_replay.go:54-96 | A committed key is not granted again before it expires, unless it was evicted for capacity. |
| `ReplayWindow.FinishCommits` | message_direct_replay.go:74-96 | A committed finish leaves the key remembered for the lifetime, or evicts it at once because reservations fill the window. |
| `ReplayWindow.PruneExact` | message_direct_replay.go:98-110 | Stopping at the first live entry drops exactly the expired entries, and never a reservation. |
| `ReplayWindow.EvictOrder` | message_direct_replay.go:92-95 | Capacity eviction drops exactly the excess, oldest first. |
| `ReplayWindow.EvictEntry` | message_direct_replay.go:92-95 | Eviction touches no reservation and no younger commit. |
| `ReplayWindow.DuplicateRemembered` | message_direct_replay.go:54-72 | "Duplicate" is answered only for a key that is remembered as committed. |
| `ReplayWindow.GrantedWhenFree` | message_direct_replay.go:54-72 | A key that is neither reserved nor remembered, or whose time is over, is granted and reserved. |
| `ReplayWindow.FailedForgets` | message_direct_replay.go:74-85 | A failed delivery leaves no trace of its key, and touches no other. |
| `ReplayWindow.DirectReplayWindow.BeginKey` | message_direct_replay.go:54-72 | begin: map, list and answer are those of the specification. |
| `ReplayWindow.DirectReplayWindow.FinishKey` | message_direct_replay.go:74-96 | finish: likewise, with commit, prune and eviction. |
| `ReplayWindow.DirectReplayWindow.PruneExpired` | message_direct_replay.go:98-110 | The loop over the list front is the specified pruning. |
| `ReplayWindow.DirectReplayWindow.EvictExcess` | message_direct_replay.go:92-95 | The loop is the specified eviction. |
| `Retry.RefreshNeverAdmits` | message_retry.go:13-49 | Refreshing a job listed before any run never adds a record, charges or advances a sequence. |
| `Retry.RefreshTarget` | message_retry.go:13-49 | A refresh sends a Direct job to its recipient's current core if and only if the stored job was not closed with another target. |
| `Retry.ClosedJobKeepsTarget` | message_retry.go:13-49 | For every Direct message and every store that awaits it: accepted for one core, listed, acknowledged there, its recipient rebound, it is sent to the old core by the refresh. |
| `Retry.WaitExact` | message_manager.go:465-477 | Advice is recorded as given if and only if it fits the duration type. |
| `Retry.RefreshExact` | message_retry.go:13-49 | At any later time, whatever happened since a job was listed: a refresh fails exactly if the data is unreadable, the recipient is unbound, or its core changed and the job is gone; else it sends the listed data to where the job is bound, and touches nothing but the target of that job while unfinished. |
| `Retry.RefreshFiles` | message_retry.go:38-49 | The store files where an open job was sent, so that the answer from there is the one that counts. |
| `Retry.OtherJobsKeepTarget` | message_retry.go:17-37 | A job that is not Direct keeps its target whatever is bound; unreadable data is not sent. |
| `Retry.TurnReports` | message_retry.go:74-83 | A turn reports the error of a failed refresh, or the one the router reported. |
| `Retry.FirstErrorExact` | message_retry.go:69-85 | The error of a pass is that of the first attempt that has one, and none exactly if no attempt has. |
| `Retry.PassExact` | message_retry.go:69-85 | Whatever other calls do to store, waits and bindings between and within the turns of a pass: every listed job gets one turn, in order, is tried exactly if no wait stands in its way then, and each trial is as above. |
| `Retry.RunSince` | message_retry.go:54-86 | Over any run, numbers only grow, and a record still held under a number given out before is the job it was. |
| `Retry.MessageManager.RetryPendingResolved` | message_retry.go:54-86 | One pass, with other calls coming in at every point where no lock is held: it prunes, lists every unfinished job, and its turns are those of the listed jobs, one each and in order, each beginning in the state the one before left; so a job is tried exactly if it is ready in that state, sent where it is bound then, nothing is admitted, charged or numbered, and the first error is reported without skipping later jobs. |
| `Retry.MessageManager.RetryListed` | message_retry.go:69-85 | The same of a list taken from an earlier store, in order, whatever became of its jobs. |
| `Retry.MessageManager.RefreshAcceptedTarget` | message_retry.go:13-49 | Store and answer are those of the specification, with the binding read before and the store used after whatever comes in between. |
| `Retry.MessageManager.RecordRetryAdvice` | message_manager.go:465-477 | After retryable advice the job is ready exactly from the end of the wait on; after any other ack it is ready at once; other jobs are ready when they were. |
| `Retry.MessageManager.RetryReady` | message_manager.go:479-495 | A job is ready if no wait is recorded or it has passed, and a wait that has passed is forgotten. |
| `Routing.AtMostOneRelay` | message_server.go:33-68 | However connections change from hop to hop: at most two hops, no core twice, one of the allowed paths, consumed by the target only. |
| `Routing.DeliveredIff` | message_server.go:33-68 | Exactly which connections let a well-formed notification reach its target. |
| `Routing.FailureReported` | message_server.go:33-68 | A journey that ends short of the target ends with an error, at the origin or at the bootstrap. |
| `Routing.SecondHandling` | message_server.go:47-58 | A core that is handed a notification consumes it, refuses it or, as the bootstrap, hands it to the target, which consumes it. |
| `Routing.MalformedStays` | message_server.go:33-46 | What is not a message with a target and data goes nowhere. |
| `RateLimiter.AnyIntervalBelowTwice` | message_rate_limiter.go:69-119 | Over every run with a clock that does not go back: every interval of one window length holds less than twice a key's message and byte limits. A limit of zero admits nothing. |
| `RateLimiter.BoundIsMet` | message_rate_limiter.go:69-119 | That bound cannot be improved: for every limit some run puts one message less than twice the limit into one such interval. |
| `RateLimiter.RunKeepsKeyOk` | message_rate_limiter.go:69-119 | The window on record holds exactly what was admitted in it, within the limits. |
| `RateLimiter.AdmitExact` | message_rate_limiter.go:81-119 | A refused call changes no counter; an admitted one adds one message and its size to the current window of its four keys and to nothing else. |
| `RateLimiter.KeyKind` | message_rate_limiter.go:87-92 | A key belongs to one of the four limits only, whatever the direction and the accounts. |
| `RateLimiter.AdmittedIff` | message_rate_limiter.go:81-119 | Over every run with a clock that does not go back, under limits whose counters cannot overflow, a call is admitted if and only if it is valid and each of its four limits has room for it beside what was admitted since that limit's window began. |
| `RateLimiter.KeysName` | message_rate_limiter.go:87-92 | Two calls share a key exactly if they concern the same sender, pair, recipient or all, in one direction. |
| `RateLimiter.ChargedExact` | message_rate_limiter.go:112-118 | The admissions of a key are the admitted calls about the same thing. |
| `RateLimiter.BlocksExact` | message_rate_limiter.go:69-79 | A limit refuses exactly if its open window leaves no room; a window that is over, or ahead of a clock that went back, holds nothing. |
| `RateLimiter.CountedWhere` | message_rate_limiter.go:112-118 | An admitted call is counted in the open window, or opens a new one at its own time. |
| `RateLimiter.TestExactIffSound` | message_rate_limiter.go:77-79 | With calls of up to a given size, the 64-bit test is the intended one on every usage calls can add up to, if and only if the limits admit nothing or the most they admit and one more call stay below 2^64. |
| `RateLimiter.SoundUpTo63` | message_rate_limiter.go:77-79 | Byte limits of up to 2^63 are such, with any message limit and calls of any size. |
| `RateLimiter.UnsoundOverrun` | message_rate_limiter.go:69-119 | With any other limit on all four keys, some run on a new limiter has calls admitted, at one instant, beyond the byte limit. |
| `RateLimiter.RetryAfterExact` | message_rate_limiter.go:105-111 | The advised wait ends exactly with the blocking window; without one, that key refuses the call at any time. |
| `RateLimiter.DirectAdmissionLimiter.Admit` | message_rate_limiter.go:81-119 | Two passes over the four keys, one that looks and one that charges, give the specified counters and verdict. |
| `QueryGuard.NeverTwice` | message_service_auth.go:46-92 | In every run with a clock that does not go back, no signed query is authorized twice, although nonces are forgotten. |
| `QueryGuard.PassesIff` | message_service_auth.go:46-92 | Over every run with a clock that does not go back, a query is authorized if and only if it is in order, its account signed it, that account has not used the nonce in a query still valid, and fewer than 120 queries of the account for the action were authorized since the open minute began. |
| `QueryGuard.AuthorizedIff` | message_service_auth.go:46-92 | The same of one query on any state, with every check spelled out. |
| `QueryGuard.LimitedExact` | message_service_auth.go:77-87 | A query that is only over its budget is told the time until its minute is over, exactly. |
| `QueryGuard.QuietMinute` | message_service_auth.go:77-87 | Fewer than 120 authorizations in the last minute leave budget. |
| `QueryGuard.NonceReuse` | message_service_auth.go:64-76 | An account's nonce is authorized again only after the expiry of its earlier use. |
| `QueryGuard.AnyMinuteBelowTwice` | message_service_auth.go:77-91 | No window of an account and action holds more than 120 authorizations, and every minute less than twice that. |
| `QueryGuard.RefusedRecordsNothing` | message_service_auth.go:46-92 | A refused query leaves budgets and live nonces as they were. |
| `QueryGuard.NoncesShortLived` | message_service_auth.go:54-58 | No nonce is kept for more than two minutes after the last query. |
| `QueryGuard.PayloadInjective` | wire/message_service.go:92-115 | The signed payload fixes action, account, topic, nonce and expiry. |
| `QueryGuard.MessageServiceQueryGuard.Authorize` | message_service_auth.go:46-92 | Nonces, counters and verdict are those of the specification, which `AuthorizedIff`, `LimitedExact` and `PassesIff` determine. |
| `QueryGuard.MessageServiceQueryGuard.PruneNonces` | message_service_auth.go:69-73 | The loop drops exactly the expired nonces. |
| `CheckpointCache.IntervalBlockHashes` | blockchain/chain.go:1768-1801 | The walk that jumps through the best chain finds exactly the stop block's ancestors at the positive multiples of the interval. |
| `CheckpointCache.CheckpointsChain` | blockchain/chain.go:1768-1801 | Each checkpoint determines the one below it. |
| `CheckpointCache.CheckpointsFollow` | blockchain/chain.go:1768-1801 | It does so in every later block tree, whichever tree and stop block it was asked for in. |
| `CheckpointCache.AnswerIsIndex` | server.go:1190-1256 | From a trustworthy cache, every answer is the index's header of each checkpoint of the requested chain; there is none exactly if the index fails or lacks a header beyond the part shared with the cache. |
| `CheckpointCache.RunAnswersAncestors` | server.go:1142-1256 | Over every run of requests while the block tree grows and chains are reorganised: as long as no earlier request was the spoiling case, every answer holds the index's header of each ancestor of the stop block at a positive multiple of the interval. |
| `CheckpointCache.RunAnswersIndex` | server.go:1142-1256 | The same for any lists of hashes in which each determines the one before. |
| `CheckpointCache.CacheOkIff` | server.go:1151-1254 | A request keeps the cache trustworthy if and only if it is not the spoiling case: growing in the spare capacity for a chain that left the cached one, with an index that gives out below the old length. |
| `CheckpointCache.SpoiledAnswer` | server.go:1224-1254 | After the spoiling case, the chain the cache was filled from is answered with the other chain's headers wherever the cache was rewritten. |
| `CheckpointCache.SpoilsOccurs` | server.go:1224-1254 | The spoiling case is reached by a second request, for any chain of three or more cached with room to spare and any longer one that left it after the first checkpoint. |
| `CheckpointCache.CompleteIndexNeverSpoils` | server.go:1214-1229 | An index that has every header, or fails as a whole, never spoils. |
| `CheckpointCache.ChainsAgree` | server.go:1190-1199 | Two chains that agree at one checkpoint agree below it. |
| `CheckpointCache.FilterHeaderCache.Grow` | server.go:1167-1180 | Appending zero entries uses the spare capacity of the backing array if there is enough, and copies to a new array otherwise. |
| `CheckpointCache.FilterHeaderCache.OnGetCFCheckpt` | server.go:1142-1256 | Backing array, length and answer are those of the specification; the answer refers to entries of the array, and the array the cache was in holds what earlier answers then show. |
| `CheckpointCache.FilterHeaderCache.Answer` | server.go:1127-1256 | From a stop hash: nothing if the block is unknown, else the answer for its checkpoints. |
| `CheckpointCache.QueuedAnswerIff` | server.go:1204-1206 | A queued answer is unchanged by a request if and only if none of its entries is overwritten with another header, which needs growth in place for a chain that left below it. |
| `CheckpointCache.QueuedAnswerRewritten` | server.go:1204-1206 | It happens with a complete index too: the queued answer then shows the other chain's headers. |
| `CheckpointCache.CheckpointMessage.Write` | wire/msgcfcheckpt.go:97-127 | The message written has the headers its entries hold at that moment, then those fetched. |
| `PeerEvents.Reachable` | server.go:1957-2129 | However announcements, losses, closed reports and drops interleave: group counts are the listed outbound peers of each group, the limit holds, a closed peer is not listed, routes lead to listed peers of their validator, and no validator with a listed connected peer is without a route. |
| `PeerEvents.StepInv` | server.go:1957-2129 | Every single event keeps this. |
| `PeerRegistry.AddKeepsOk` | server.go:2009-2024 | Adding a peer keeps lists, counts, limit and routes in order. |
| `PeerRegistry.NewestRouted` | server.go:2009-2024 | The newest connection takes its validator's route; other routes stay, and one peer more is listed. |
| `PeerRegistry.OnlyItsRoute` | server.go:2101-2129 | A peer that leaves takes at most its own route along. |
| `PeerRegistry.RemoveKeepsOk` | server.go:2101-2129 | So does taking one off, with its route passed on. |
| `PeerRegistry.LowestIsReroute` | server.go:2114-2129 | Scanning the three lists in turn selects the connected peer of lowest id of the validator, or none exactly if there is none. |
| `PeerRegistry.PeerState.AddPeer` | server.go:1959-2024 | A peer is added exactly if it is connected, not refused and not one too many; the new lists, counts and routes, or the disconnection, are as specified. |
| `PeerRegistry.PeerState.DonePeer` | server.go:2079-2110 | A closed report takes the peer off if it is listed and changes nothing otherwise. |
| `PeerRegistry.PeerState.RemoveMinerRoute` | server.go:2114-2129 | The route of a peer that left passes to the connected peer of lowest id, and other routes stay. |
| `PeerRegistry.PeerState.DisconnectPeer` | server.go:2485-2503 | Drops one matching peer of a list, or finds that none matches. |
| `PeerRegistry.PeerState.RemoveNode` | server.go:2419-2430 | Drops one matching permanent peer, keeps the registry in order, and says whether there was one. |
| `PeerRegistry.PeerState.DisconnectNode` | server.go:2446-2475 | Drops one matching inbound peer or, if there is none, exactly the matching outbound peers, and keeps the registry in order. |
| `WsQueues.RunFifo` | rpcwebsocket.go:151-193 | Whatever the timing: what was sent, then what is queued, is what was queued before, then what arrived. |
| `WsQueues.StepFifo` | rpcwebsocket.go:156-191 | Every turn keeps it: items skip the queue only when it is empty, and the oldest is next. |
| `WsQueues.DrainsAll` | rpcwebsocket.go:177-186 | A reader that keeps taking gets everything queued, in order. |
| `WsQueues.TurnsFifo` | rpcwebsocket.go:1910-1963 | Over any run one message at most is on its way to a client, nothing pends without one, and what was handed over, then what pends, is what was queued, in order. |
| `WsQueues.QueueHandler.Receive` | rpcwebsocket.go:159-175 | One arrival, as specified. |
| `WsQueues.QueueHandler.Dequeue` | rpcwebsocket.go:177-186 | One send, as specified. |
| `WsQueues.ClientQueue.OnNotification` | rpcwebsocket.go:1932-1938 | One queued notification, as specified. |
| `WsQueues.ClientQueue.OnSent` | rpcwebsocket.go:1942-1954 | One completed send, as specified. |
| `WsSubscriptions.WatchedAfter` | rpcwebsocket.go:498-640 | After any run of events, with requests and withdrawals of outpoints and addresses, mempool and block transactions and leaving clients in any order: an outpoint is watched for a client if and only if it was asked for, or created at an address the client watched then, and has since been neither spent in a block nor withdrawn, and the client is there. |
| `WsSubscriptions.AddressWatchedAfter` | rpcwebsocket.go:1231-1280 | An address is watched for a client if and only if it was asked for and neither withdrawn since nor the client gone. |
| `WsSubscriptions.WatchedIff` | rpcwebsocket.go:506-516 | After any run of connected transactions, an outpoint is watched for a client if and only if it was and is unspent, or one of them created it at a watched address and no later one spends it. |
| `WsSubscriptions.FirstAnswer` | rpcwebsocket.go:1177-1216 | A request for an outpoint no transaction creates is answered by the first that spends it, and by no other. |
| `WsSubscriptions.AnsweredOnce` | rpcwebsocket.go:1177-1216 | In general, after an answer a later transaction answers the request again if and only if it spends the outpoint, one of those since the answer created it again, and none since has spent it. |
| `WsSubscriptions.CreatedExact` | rpcwebsocket.go:1085-1125 | An output is put on watch for exactly the clients that watch an address it pays. |
| `WsSubscriptions.RequestIndex.Add` | rpcwebsocket.go:967-983 | Adds one request on both sides; the sides stay inverse and no watcher set is empty. |
| `WsSubscriptions.RequestIndex.Remove` | rpcwebsocket.go:1019-1039 | Removes one request on both sides, and the key with its last watcher. |
| `WsSubscriptions.RequestIndex.RemoveClient` | rpcwebsocket.go:589-595 | Removes exactly a client's requests; it is in no watcher set afterwards. |
| `WsSubscriptions.NotificationManager.NotifyForTxIns` | rpcwebsocket.go:1177-1216 | Tells every watcher of a spent outpoint once and nobody else; in a block, exactly those requests are taken off. |
| `WsSubscriptions.NotificationManager.NotifyForTxOuts` | rpcwebsocket.go:1075-1127 | Tells every watcher of a paid address once and nobody else, puts exactly the paying outpoints on watch for them, and tells of exactly the mempool transactions that spend one of these everybody who watches something they spend. |
| `WsSubscriptions.NotificationManager.AddSpentRequests` | rpcwebsocket.go:964-1000 | Puts exactly these outpoints on watch, and tells of the mempool transactions that spend one of them. |
| `WsSubscriptions.NotificationManager.Handle` | rpcwebsocket.go:498-640 | Every event leaves exactly what it should on watch. |
| `WsSubscriptions.NotificationManager.NotifyForTx` | rpcwebsocket.go:1162-1171 | Inputs, then outputs, with the notices of both. |
| `WsSubscriptions.NotificationManager.BlockConnected` | rpcwebsocket.go:506-516 | The transactions of a block in order; skipped when nothing is watched, to the same effect. |
| `WsSubscriptions.NotificationManager.UnregisterClient` | rpcwebsocket.go:578-596 | Afterwards nothing is watched for the client, and everything else is as before. |
| `GasSearch.EstimateGas` | rpcserver.go:1382-1502 | Wherever the doubling settles: for trial runs that run out below some amount and end the same way from it on, the least limit from the start on that succeeds, or out of gas at the maximum exactly if the maximum is not enough; for any trial runs, the outcome reported is that of the limit reported, and a limit found beyond the start is one above a limit that runs out. |
| `GasSearch.SmallNeedSettles` | rpcserver.go:1402-1427 | The doubling settles, whatever the maximum, if the call needs at most 2^62. |
| `GasSearch.SmallMaxStops` | rpcserver.go:1402-1427 | It settles for any trial runs if the maximum is at most 2^62. |
| `GasSearch.DoublingEndsIff` | rpcserver.go:1402-1427 | Doubling reaches the maximum from every start and base if and only if the maximum is at most 2^62. |
| `GasSearch.StuckProbe` | rpcserver.go:1402-1427 | For every larger maximum, a start of 2^62 and a base of 1 go on for ever: 1, 2, 4, ..., 2^62, -2^63, 0, 0. |
| `GasSearch.SuggestionWorks` | rpcserver.go:1504-1515 | For every maximum: the suggested limit lies between the limit found and the maximum, succeeds too, and is a fifth above the usage where that fits, with no padding where it exceeds 64 bits. |
| `GasSearch.NothingSuggested` | rpcserver.go:1504-1515 | Nothing is suggested for a call that does not succeed. |
| `GasSearch.StartExact` | rpcserver.go:1391-1397 | The search begins at the limit asked for, or at the base, and never above the maximum. |
| `GasSearch.Double` | rpcserver.go:1402-1427 | Ends with a limit that succeeds or fails, or at the maximum, and a lower one that ran out. |
| `GasSearch.Bisect` | rpcserver.go:1428-1440 | Closes in on a limit that succeeds next to one that runs out, or reports a failure. |

## Left out

- Signatures, hashes and key parsing: functions the protocol is handed; acks are unforgeable in that an injected packet may carry only acks a core has signed.
- Real database transactions, goroutines, mutexes and channels: each locked call is one step, other calls come in between in any order, an update is atomic, and a nil bucket is an empty one.
- Clocks: each call reads one instant of its core's clock; run properties of the windows are for clocks that do not go back.
- Topics: membership, key packages and topic delivery beyond the fan-out codec and the delivery payload; their store rests on JSON and on key builders outside this repository.
- The DKVS mailbox: an append is an action that succeeds or fails.
- Charging: the payment callback is a parameter of Accept that succeeds or fails; message_payment.go is not part of this model.
- The limiter and retry advice inside the transition system: a refusal by the limiter is an abandoned delivery there, and a job may be retried at any time.
- Upper and lower case of account ids: both are accepted and compared as they are, as in the source.
- Protocol.OkMeansDelivered: where packets no core accepted are injected, it is for accounts that sign no number and id for two recipients, which TwoRecipientsMislead shows to be needed; on a network that only repeats what cores sent it is for all.
- AcceptanceDb.RunRefines: for inputs the database store can re-read, and calls in which no charge meets an exhausted sequence; AcceptRefines says exactly what happens otherwise.
- DurableDelivery.DurableOkMeansDelivered: digests are 32 bytes long and core ids at most 256, the limit up to which the database reads a record back.
- RateLimiter.AnyIntervalBelowTwice: for limits under which no sum wraps, given the largest call; TestExactIffSound says exactly which these are, and SoundUpTo63 that byte limits of up to 2^63 are among them.
- GasSearch.EstimateGas: for searches that stop before they have to double a probe of 2^62 or more, because the others wrap around and need not end; DoublingEndsIff, SmallMaxStops and SmallNeedSettles say which do. Base gas and maximum defaults are parameters, and deployment differs from invocation in the default base only.
- CheckpointCache.RunAnswersAncestors: for runs without the spoiling case, since answers after it can be wrong, and of answers when they are queued; QueuedAnswerIff says what becomes of them. Block hashes are not the zero hash, and the capacity chosen when a slice moves is a parameter. Requests that come before the chain is in sync or name an unknown filter type are ignored by the source and not modelled.
- Upper-casing and trimming of query actions and topics: a query holds them as they are signed.
- PeerEvents.Reachable: a connection is announced at most once, after its version exchange, and its closed report follows its end, as the peer handlers see to. Bans, user agents and shutdown are one refusal flag.
- WsSubscriptions.NotificationManager.NotifyForTxOuts: the mempool does not change while one transaction is handled, and knows its transactions by every outpoint they spend; a notice for a mempool spend can be repeated, and how often is not stated.
- Marshalling failures, and the remaining websocket notifications.
- Configuration, logging, RPC handlers, contract execution, mining, and chain code other than the checkpoint walk.
