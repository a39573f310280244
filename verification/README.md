# Verification of the pub/sub middleware

A Dafny 4.11 model of the middleware in `pubsub_rtos`: its reference-counted frame pool, its event bus, its
persistent configuration, its fault manager, its watchdog and its telemetry encoder. `dafny verify dfyconfig.toml`
checks everything.

Code that updates state in place is a class over the same fields and arrays, each method proved against a function of
the old state, and what others observe of it (queue entries, records, defaults, printed text) also value by value; what
the design promises is proved about those functions. Code that several tasks run at once is a
state machine with one step per critical section, queue operation or descriptor access, and what it promises is proved
of every reachable state of every interleaving.

| module | what it is about |
|---|---|
| `Common` | the width of the counters, topics and task ids |
| `PayloadPool` | the pool of 8 descriptors, as a class over an array |
| `FrameLifetime`, `FrameSafety`, `FrameDraining` | the zero-copy protocol as a step machine with a generation for every allocation: reference counts, no premature free and no confusion by reuse, no leak |
| `FrameLimits` | what the protocol does not protect: the diagnostic line |
| `FrameSubscribing` | subscribing while frames are under way, and exactly when that is safe |
| `FramePublisher`, `FrameRefinement` | `publishFrameReady` as a method over pool and bus, and its agreement with the step machine |
| `EventBus` | registry, queues and fan-out loop as a class, and what a fan-out does in closed form |
| `BusDepth` | the highest-depth statistic over any traffic |
| `BusProtocol`, `BusSafety`, `BusIds`, `BusAccounting`, `BusProgress` | any number of tasks inside the bus: order, ids, accounting, deadlock freedom, termination, agreement with the sequential fan-out |
| `AppWiring` | the subscriptions made at start-up, the watchdog's first |
| `Words`, `Gf2`, `GoodFcs`, `LoneBit`, `TwoBits`, `Crc32`, `V1Checksum` | 32-bit words, polynomials over GF(2), the CRC-32 loop, its residue and the changes it detects, and the old checksum |
| `ConfigRecord`, `ConfigDamage`, `ConfigStore`, `ConfigLives` | record layouts, validity, migration, corruption; the store as a class, and whole lives of the device with reboots and failed or interrupted saves |
| `Ticks`, `FaultManager`, `Watchdog` | wrapping tick counters; debounce, state and fault ring; heartbeat supervision in true time |
| `Telemetry` | the JSON line, a reader for it, and its length |
| `Sums` | weighted sums over sequences |

The assumptions are those of the design. Mutexes exclude, queues are bounded and a send with timeout 0 is atomic.
Subscriptions are frozen once tasks run (`FrameSubscribing` is about one that is not), the number of subscribers is
symbolic and at most 255, and any number of publishers and consumers may take part, each consumer reading one queue.
Tick counts wrap at a symbolic modulus. One writer saves the configuration, as in the application. The field `p0` of an
event is the first payload byte, and `frame` is the pointer that `FRAME_READY` packs.

Where the code and its documentation differ, the model follows the code:

- `pubsub_rtos/README.md:512` gives a frame two references; three queues receive `FRAME_READY`
  (`AppWiring.StartUp`), and the lifetime results hold for any number.
- The remark at `pubsub_rtos/src/fault_manager.c:89` doubts that events are ever accepted; `accepted` starts out true,
  and accepted events do update state and history.
- The diagnostic line at `pubsub_rtos/src/app_tasks.c:106-110` reads a descriptor the publisher no longer owns; no
  result protects that read, and `FrameLimits.PrintReadsOwnFrameIff` says when it reads the publisher's own frame.

Promises one might expect that are false of the code, each with a run or input that breaks it and the exact condition
under which it holds:

| expectation | run or input | holds exactly when |
|---|---|---|
| event ids arrive in order | `BusProgress.IdsMayArriveOutOfOrder` | nobody overtakes on the way to the topic lock: `BusIds.IdsInOrderIffNobodyOvertook` |
| the diagnostic line reads its own frame | `FrameLimits.TrailingPrintIsUnprotected` | a queue or consumer still has its pointer: `FrameLimits.PrintReadsOwnFrameIff` |
| the pool can always be drained | `FrameDraining.UnservedLeaks` | every subscribed queue is served: `FrameDraining.DrainsIffServed` |
| tunables are always in range | `ConfigStore.LoadedValuesAreNotChecked` | the first boot loads them in range: `ConfigLives.AlwaysInRangeIff` |
| the old checksum notices a change | `ConfigDamage.TwoBytesMayCancelV1` | the sums up to the last changed byte differ: `ConfigDamage.ChangedRecordValidIffV1` |
| a repeat is suppressed exactly within 2000 ticks | `FaultManager.LateRepeatIsLost` | its distance can be told from the counter: `FaultManager.SuppressedIffRecent`, `FaultManager.RightIffDistinguishable` |
| a free undoes an added reference | `PayloadPool.AddRefWrapsAndFreeWipes` | the count was between 1 and 254: `PayloadPool.FreeUndoesAddRef` |
| the depth statistic covers every depth read | `EventBus.DepthMayFall` | no depth read was 256 or more: `BusDepth.DepthCoveredIff` |
| subscribing late is safe | `FrameSubscribing.LateSubscriptionDangles` | no publisher is between reading the subscriber count and taking the topic lock: `FrameSubscribing.LockedSubscriptionSafeIff` |

The last row is about wirings in which every subscribed queue has room and a consumer, so that the subscription can do
its harm; that it does none outside the window needs no such condition (`FrameSubscribing.HarmlessOutsideWindow`). The
window closes when the publisher takes the topic lock, because `Bus_Subscribe` waits for it
(`pubsub_rtos/src/event_bus.c:69`). Without the lock it would close with the first refused send, whose compensating
free makes up for the queue that was not counted (`FrameSubscribing.LateSubscriptionSafeIff`).

## Model

| member | source | states |
|---|---|---|
| `PayloadPool.Pool.BlockIndexFromPayload` | pubsub_rtos/src/payload_pool.c:18-26 | the scan returns the block of a pool pointer and -1 for null, foreign and out-of-range ones |
| `PayloadPool.Pool.Alloc` | pubsub_rtos/src/payload_pool.c:37-58 | takes the lowest free block, zeroed with count 1, and returns null exactly when none is free |
| `PayloadPool.Pool.AddRef` | pubsub_rtos/src/payload_pool.c:60-72 | adds one, modulo 256, to the count of an allocated block and otherwise changes nothing |
| `PayloadPool.Pool.SetRefCount` | pubsub_rtos/src/payload_pool.c:74-86 | sets the count of an allocated block; null, foreign, unallocated and count 0 are ignored |
| `PayloadPool.Pool.Free` | pubsub_rtos/src/payload_pool.c:88-106 | drops one reference, wipes the block with the last one, ignores foreign and double frees |
| `PayloadPool.Pool.GetFreeCount` | pubsub_rtos/src/payload_pool.c:108-121 | counts the blocks not in use |
| `PayloadPool.AllocTakesOne` | pubsub_rtos/src/payload_pool.c:37-58 | an allocation lowers the free count by exactly one, and fails exactly when it is 0 |
| `PayloadPool.FreeUndoesAddRef` | pubsub_rtos/src/payload_pool.c:60-106 | a free undoes an added reference if and only if the 8-bit count was between 1 and 254 |
| `PayloadPool.AddRefWrapsAndFreeWipes` | pubsub_rtos/src/payload_pool.c:60-106 | a run of the API in which it does not: alloc, count to 255, add a reference, free once, and the block is wiped |
| `PayloadPool.CountedFrees` | pubsub_rtos/src/payload_pool.c:88-106 | a block counted to n survives n-1 frees intact, is wiped by the n-th, and further frees touch nothing |
| `FrameSafety.StepKeepsInv` | pubsub_rtos/src/app_tasks.c:74-104 | every step of every publisher and consumer (alloc, each field write, count, set count, each send, each compensating free, dequeue, read, free) keeps the reference invariant |
| `FrameSafety.RefCountIsOutstandingReferences` | pubsub_rtos/src/app_tasks.c:74-104 | in every reachable state of any number of publishers and consumers, each count equals queued + held + owed references and is at most 255; blocks without references are wiped |
| `FrameSafety.ConsumerSeesItsFrame` | pubsub_rtos/src/app_tasks.c:540-550 | between taking a pointer off a queue and its own free, a consumer sees the block in use, of the generation the pointer was published for, holding that frame |
| `FrameSafety.ConsumerReadsAPublishedFrame` | pubsub_rtos/src/app_tasks.c:82-85 | the fields any consumer has read, one access at a time, are those an earlier publishFrameReady call of the run wrote |
| `FrameSafety.UnpublishedIsPrivate` | pubsub_rtos/src/app_tasks.c:82-94 | a descriptor being filled in is referenced by its publisher alone |
| `FrameSafety.AllocFailsIffAllReferenced` | pubsub_rtos/src/payload_pool.c:41-50 | allocation fails exactly when all 8 blocks have outstanding references |
| `FrameDraining.StepReducesWork` | pubsub_rtos/src/app_tasks.c:388-397 | every step other than new input strictly lowers a well-founded measure |
| `FrameDraining.NoLeak` | pubsub_rtos/src/app_tasks.c:74-104 | with every subscribed queue served by a task of its own, all runs without new input stop within a bound, and where they stop the pool is entirely free |
| `FrameDraining.CanDrain` | pubsub_rtos/src/payload_pool.c:88-106 | the constructive half of DrainsIffServed: a run without new input to 8 free blocks |
| `FrameDraining.UnservedLeaks` | pubsub_rtos/src/app_tasks.c:388-397 | a subscribed queue that nobody reads keeps a block for good, in every continuation |
| `FrameDraining.DrainsIffServed` | pubsub_rtos/src/app_tasks.c:388-397 | the pool can be drained from every reachable state if and only if every queue that can receive a frame has a consumer |
| `FrameLimits.PrintReadsOwnFrameIff` | pubsub_rtos/src/app_tasks.c:106-110 | in every reachable state the diagnostic line reads its own frame if and only if a queue or consumer still has its pointer; otherwise the block is wiped or another allocation's |
| `FrameLimits.TrailingPrintIsUnprotected` | pubsub_rtos/src/app_tasks.c:106-110 | a reachable state in which the diagnostic line reads a wiped block |
| `FrameSubscribing.LateSubscriptionSafeIff` | pubsub_rtos/src/app_tasks.c:87-104 | a subscription at any reachable moment, every subscribed queue being served, keeps all queued and held pointers live in every later run if and only if no publisher has read the count and had every send so far accepted |
| `FrameSubscribing.LockedSubscriptionSafeIff` | pubsub_rtos/src/event_bus.c:69 | as Bus_Subscribe takes the topic lock that a fan-out holds, it is safe if and only if no publisher is between reading the count and taking the lock |
| `FrameSubscribing.LateSubscriptionHarmless` | pubsub_rtos/src/event_bus.c:62-83 | a subscription while no publisher is between reading the count and the end of its fan-out keeps the whole invariant in every run that follows, served or not |
| `FrameSubscribing.LateSubscriptionDangles` | pubsub_rtos/src/app_tasks.c:87-94 | the smallest run: one subscription between setting the count and taking the lock, then a queued pointer to a freed block |
| `FramePublisher.Publisher.NextEvent` | pubsub_rtos/src/app_tasks.c:39-51 | stamps an event, field by field, with the incremented, wrapping sequence number of its source |
| `FramePublisher.Publisher.PublishSimple` | pubsub_rtos/src/app_tasks.c:62-67 | status events go out in the health manager's name and sequence; what is new in the queues is that event, its two values in the first two payload bytes |
| `FramePublisher.Publisher.FreeRefused` | pubsub_rtos/src/app_tasks.c:102-104 | the compensating loop leaves the count at the number of accepting queues, or frees the block |
| `FramePublisher.Publisher.SendFrame` | pubsub_rtos/src/app_tasks.c:94-104 | publish and compensation together: whatever is new in any queue is a FRAME_READY event with this very pointer, and the block is left counted to exactly how many there are |
| `FramePublisher.Publisher.PublishFrameReady` | pubsub_rtos/src/app_tasks.c:74-104 | the whole call without interference, with the whole new state: exhausted pool and its fault report, no subscribers, partly and fully refused fan-out; new queue entries carry the pointer taken, and the descriptor the four fields of this sequence number |
| `FrameRefinement.SendAlone` | pubsub_rtos/src/app_tasks.c:101-104 | the send and compensation steps of the machine, uninterrupted, give the queues and count of the sequential fan-out |
| `FrameRefinement.PublishAloneRefines` | pubsub_rtos/src/app_tasks.c:74-104 | from every reachable state an uninterrupted call of the machine leaves pool and queues as the sequential method promises |
| `FrameRefinement.PublishFrameReadyAsRun` | pubsub_rtos/src/app_tasks.c:74-104 | the method itself against the machine: from any reachable state that its pool and queues show, the call takes them to a state that a run of that publisher alone leads to, fault report included |
| `AppWiring.SubscribeLogger` | pubsub_rtos/src/app_tasks.c:557-564 | adds the logger to every topic but the heartbeat |
| `AppWiring.SubscribeAll` | pubsub_rtos/src/app_tasks.c:583-611 | where there is room, every subscription of AppTasks_Start succeeds and each topic has its old slots followed by the listed ones |
| `AppWiring.StartUp` | pubsub_rtos/src/main.c:30-32 | bus, watchdog and application in order: the subscribers of each of the 18 topics, in slot order |
| `AppWiring.FrameQueuesServed` | pubsub_rtos/src/app_tasks.c:583-611 | in the application each of those three queues has its task, so the pool can always be drained |
| `EventBus.Bus.constructor` | pubsub_rtos/src/event_bus.c:44-59 | empty registry, no drops, first id 1 |
| `EventBus.Bus.Subscribe` | pubsub_rtos/src/event_bus.c:62-83 | appends the queue to the topic's slots unless all 6 are taken |
| `EventBus.Bus.AllocateEventId` | pubsub_rtos/src/event_bus.c:27-34 | returns the counter and increments it modulo 2^32 |
| `EventBus.Bus.FanOutTo` | pubsub_rtos/src/event_bus.c:109-126 | the fan-out loop computes the fan-out over all slots |
| `EventBus.Bus.QueueReceive` | pubsub_rtos/src/watchdog_task.c:42 | takes the oldest event off a queue, if there is one |
| `EventBus.Bus.PublishWithCount` | pubsub_rtos/src/event_bus.c:91-135 | one publish gives the whole bus state of the specification: queues, statistics, drop count, id; and the accepted count and result |
| `EventBus.Bus.OfferTo` | pubsub_rtos/src/event_bus.c:109-126 | the loop body for one slot: send without waiting, then statistics, or drop |
| `EventBus.Bus.GetSubscriberCount` | pubsub_rtos/src/event_bus.c:178-190 | the number of slots in use |
| `EventBus.FanOutPerQueue` | pubsub_rtos/src/event_bus.c:109-126 | each queue gets at its tail one copy per subscription as far as its own room goes, whatever the other queues do |
| `EventBus.PublishOnlyAdds` | pubsub_rtos/src/event_bus.c:109-126 | a publish keeps what every queue held, and all it adds is the event it was given |
| `EventBus.PublishAllInOrder` | pubsub_rtos/src/event_bus.c:91-135 | of several publishes, a queue subscribed once gets as many as it has room for, in order and with consecutive ids; a queue not subscribed gets none |
| `EventBus.FanOutConserves` | pubsub_rtos/src/event_bus.c:109-135 | the accepted count is what the queues grew by; the result is a failure exactly when something was dropped |
| `EventBus.FanOutCounters` | pubsub_rtos/src/event_bus.c:111-126 | delivered, dropped and the drop count advance by exactly the accepting and refusing slots, modulo 2^32 |
| `EventBus.FanOutDepth` | pubsub_rtos/src/event_bus.c:112-117 | while no queue gets 256 deep, the depth statistic never falls, covers every queue that took the event, and is a depth really reached |
| `BusDepth.DepthCoveredIff` | pubsub_rtos/src/event_bus.c:112-117 | over any traffic, consumers and other topics between a send and reading its depth included, the statistic ends at least as high as every depth read if and only if none was 256 or more |
| `BusDepth.RunningMaximum` | pubsub_rtos/src/event_bus.c:115-117 | and until then it is exactly the highest of its first value and the depths read |
| `BusDepth.FanOutIsTraffic` | pubsub_rtos/src/event_bus.c:109-126 | the sequential fan-out is such traffic, each accepted send followed by its depth |
| `EventBus.DepthMayFall` | pubsub_rtos/src/event_bus.c:112-117 | a queue that gets 256 deep resets the statistic to 0 |
| `EventBus.FanOutSucceedsIffRoom` | pubsub_rtos/src/event_bus.c:97-134 | pdPASS exactly when every queue has room for all of its subscriptions |
| `BusSafety.StepKeepsLocks` | pubsub_rtos/src/event_bus.c:105-128 | every step of every interleaving keeps each lock held by exactly the task whose position holds it |
| `BusSafety.QueueFollowsLockOrder` | pubsub_rtos/src/event_bus.c:105-128 | what a queue accepted of one topic follows the order in which publishers took the topic lock |
| `BusSafety.SubscribersAgree` | pubsub_rtos/src/event_bus.c:105-128 | two subscribers never disagree on the order of two publishes both received |
| `BusSafety.QueueIsTailOfLog` | pubsub_rtos/src/event_bus.c:111 | a queue holds the newest part of what it accepted, in order |
| `BusSafety.EventIdsCollideIff` | pubsub_rtos/src/event_bus.c:27-34 | two allocated ids are equal if and only if a multiple of 2^32 allocations lies between them |
| `BusAccounting.ReportedCountIsTrue` | pubsub_rtos/src/event_bus.c:109-134 | under any interleaving the reported count is the number of entries this publish put into queues, and success means every slot |
| `BusAccounting.DeliveryConserved` | pubsub_rtos/src/event_bus.c:105-128 | whenever a topic lock is free, delivered + dropped = published x subscribers, really and in the counters modulo 2^32 |
| `BusAccounting.DropCountIsSumOfTopics` | pubsub_rtos/src/event_bus.c:36-41 | at every moment the global drop count is the sum of the topic drops plus the drops in flight, modulo 2^32 |
| `BusProgress.SomeTaskCanRun` | pubsub_rtos/src/event_bus.c:167-203 | while a task is inside a bus call, some task inside a bus call can step: no deadlock |
| `BusProgress.LockOrder` | pubsub_rtos/src/event_bus.c:105-126 | topic lock before drop lock, never the other way, never twice |
| `BusProgress.CallsReturn` | pubsub_rtos/src/event_bus.c:105-128 | calls in progress make a bounded number of steps whatever the schedule, and when none can step all have returned |
| `BusProgress.PublishAloneRefinesFanOut` | pubsub_rtos/src/event_bus.c:91-135 | an uninterrupted publish of the machine does what the sequential fan-out computes |
| `BusProgress.IdsMayArriveOutOfOrder` | pubsub_rtos/src/event_bus.c:101-105 | a run in which a queue receives a later id first: ids are unique, not ordered |
| `BusIds.IdsInOrderIffNobodyOvertook` | pubsub_rtos/src/event_bus.c:101-105 | in every run that ends with nobody waiting for a topic, its publishes are in the order of their ids if and only if no publisher took the lock ahead of a waiting one with an earlier id |
| `BusIds.QueueIdsInOrder` | pubsub_rtos/src/event_bus.c:101-111 | unless somebody overtook, every queue gets the ids of a topic in the order they were handed out, increasing until the counter wraps |
| `BusIds.QueuedIdsCollideIff` | pubsub_rtos/src/event_bus.c:27-34 | two queued publishes carry the same bus-given id if and only if a multiple of 2^32 allocations lies between them |
| `Crc32.Compute` | pubsub_rtos/src/runtime_config.c:27-41 | the shift-and-mask loop computes the CRC function |
| `Crc32.MaskSelects` | pubsub_rtos/src/runtime_config.c:35-36 | the negated low bit is a mask that selects the polynomial |
| `Crc32.RegisterConcat` | pubsub_rtos/src/runtime_config.c:32-38 | the register before inversion composes over concatenation |
| `Crc32.TableAgrees` | pubsub_rtos/src/runtime_config.c:32-38 | for every byte string the table-driven algorithm of section 8 of RFC 1952 gives the same register |
| `Crc32.CrcIsRemainder` | pubsub_rtos/src/runtime_config.c:27-41 | for every byte string the complemented CRC is the remainder of long division by the CRC-32 polynomial |
| `Crc32.CrcIsTheRemainder` | pubsub_rtos/src/runtime_config.c:27-41 | and it is the only word that differs from the dividend by a multiple of the polynomial |
| `Crc32.RegisterDetectsBurst` | pubsub_rtos/src/runtime_config.c:32-38 | any change confined to 32 consecutive bits changes the register |
| `Crc32.RegisterDetectsTwoBits` | pubsub_rtos/src/runtime_config.c:32-38 | any change of one or two bits fewer than 224 places apart changes the register |
| `Crc32.ResidueRegister` | pubsub_rtos/src/runtime_config.c:34-37 | 32 zero bits take the all-ones register to 0xDEBB20E3, the good FCS of section C.3 of RFC 1662 |
| `Crc32.CheckValueIffResidue` | pubsub_rtos/src/runtime_config.c:32-40 | a word is the CRC of a message if and only if the register over message and word is 0xDEBB20E3 |
| `Gf2.DivisionExists` | pubsub_rtos/src/runtime_config.c:27-41 | the long division the CRC is compared with really is division: dividend = quotient x generator + remainder |
| `Gf2.DivisionUnique` | pubsub_rtos/src/runtime_config.c:27-41 | that decomposition is unique |
| `Gf2.FeedLinear` | pubsub_rtos/src/runtime_config.c:33-37 | the bit step is linear over exclusive-or |
| `Gf2.FeedInjective` | pubsub_rtos/src/runtime_config.c:33-37 | feeding the same bits keeps different registers different |
| `Gf2.AtOnce` | pubsub_rtos/src/runtime_config.c:33-37 | adding a byte or word at once and shifting equals feeding its bits one by one |
| `Gf2.RegisterIsRemainder` | pubsub_rtos/src/runtime_config.c:27-41 | for every initial register and message the shift register ends as the remainder |
| `Gf2.BurstDetected` | pubsub_rtos/src/runtime_config.c:33-37 | two strings that differ only within 32 bits and leave the same register are equal |
| `TwoBits.NoReturn` | pubsub_rtos/src/runtime_config.c:33-37 | fewer than 224 zero bits never take a register with a lone leading one back to itself |
| `TwoBits.TwoBitsDetected` | pubsub_rtos/src/runtime_config.c:33-37 | for every start and every string, changing one bit, or two bits fewer than 224 places apart, changes the register |
| `GoodFcs.NextIsStep` | pubsub_rtos/src/runtime_config.c:34-37 | the bit step written out bit by bit is the step of the shift register |
| `GoodFcs.ThirtyTwoZeros` | pubsub_rtos/src/runtime_config.c:34-37 | the register that 32 zero bits make of all ones, evaluated |
| `V1Checksum.Compute` | pubsub_rtos/src/runtime_config.c:48-59 | the loop computes the checksum function |
| `V1Checksum.ChecksumBits` | pubsub_rtos/src/runtime_config.c:52-58 | bit for bit, each byte enters by exclusive-or with 33 times the checksum so far modulo 2^32, from 0 |
| `V1Checksum.ThirtyThreeInvertible` | pubsub_rtos/src/runtime_config.c:55 | multiplying by 33 modulo 2^32 can be undone |
| `V1Checksum.OneByteDetected` | pubsub_rtos/src/runtime_config.c:54-58 | for every byte string, changing exactly one byte changes the checksum |
| `V1Checksum.UnnoticedIffSumsMeet` | pubsub_rtos/src/runtime_config.c:54-58 | strings equal after byte j have equal checksums if and only if the sums up to byte j are equal |
| `V1Checksum.TwoBytesCancel` | pubsub_rtos/src/runtime_config.c:54-58 | whatever precedes them, there are two bytes that two others can replace unnoticed |
| `ConfigRecord.DecodeEncode` | pubsub_rtos/include/runtime_config.h:14-25 | a version 2 record survives its 28-byte layout field for field |
| `ConfigRecord.EncodeDecode` | pubsub_rtos/include/runtime_config.h:14-25 | every 28-byte string is the layout of what it decodes to |
| `ConfigRecord.EncodeParts` | pubsub_rtos/include/runtime_config.h:14-25 | which field lies at which offset, little-endian |
| `ConfigRecord.DecodeEncodeV1` | pubsub_rtos/src/runtime_config.c:13-22 | the same for version 1 records, 24 bytes |
| `ConfigRecord.EncodeDecodeV1` | pubsub_rtos/src/runtime_config.c:13-22 | and back |
| `ConfigRecord.EncodeV1Parts` | pubsub_rtos/src/runtime_config.c:13-22 | the same for version 1 |
| `ConfigRecord.MigrationPreserves` | pubsub_rtos/src/runtime_config.c:86-103 | migration gives a valid version 2 record with the five shared fields unchanged |
| `ConfigDamage.CrcFitsIffResidue` | pubsub_rtos/src/runtime_config.c:43-46 | the CRC field fits if and only if the register over all 28 bytes is 0xDEBB20E3 |
| `ConfigDamage.BurstRejected` | pubsub_rtos/src/runtime_config.c:75-84 | a valid record changed only within 32 consecutive bits, CRC field included, is always rejected |
| `ConfigDamage.TwoBitsRejected` | pubsub_rtos/src/runtime_config.c:75-84 | a valid record with one or two bits flipped, anywhere in its 28 bytes and however far apart, is always rejected |
| `ConfigDamage.FourByteChangeRejected` | pubsub_rtos/src/runtime_config.c:75-84 | in particular any change within four consecutive bytes |
| `ConfigDamage.OneByteChangeRejectedV1` | pubsub_rtos/src/runtime_config.c:86-93 | a version 1 record with one changed byte, checksum included, is never accepted |
| `ConfigDamage.ChangedRecordValidIffV1` | pubsub_rtos/src/runtime_config.c:89-93 | a record changed after its version and up to byte j is still accepted if and only if the sums up to byte j are equal |
| `ConfigDamage.TwoBytesMayCancelV1` | pubsub_rtos/src/runtime_config.c:89-93 | for any periods and boot count, two valid 24-byte records that differ in exactly two bytes: the limit of the checksum |
| `ConfigStore.Store.WriteConfig` | pubsub_rtos/src/storage_backend_posix.c:34-44 | storage after a complete, refused or interrupted write |
| `ConfigStore.Store.LoadDefaults` | pubsub_rtos/src/runtime_config.c:61-73 | a valid record with threshold 35, voltage 33, flags 0, periods 5000 and 2800, and boot count 0 |
| `ConfigStore.Store.MigrateV1` | pubsub_rtos/src/runtime_config.c:86-103 | accepts exactly the valid version 1 records, and changes nothing otherwise |
| `ConfigStore.Store.LoadStored` | pubsub_rtos/src/runtime_config.c:107-137 | what a boot makes of any storage contents: valid v2, else valid v1 migrated, else defaults |
| `ConfigStore.Store.Init` | pubsub_rtos/src/runtime_config.c:105-142 | the loaded record with one boot more, saved; from empty storage the factory settings with boot count 1 |
| `ConfigStore.Store.Set` | pubsub_rtos/src/runtime_config.c:153-203 | a setting in range is applied, stamped and saved; out of range changes and writes nothing |
| `ConfigStore.Store.Save` | pubsub_rtos/src/runtime_config.c:205-224 | the stamped record in memory, and storage as the write ended |
| `ConfigStore.LoadedByBytes` | pubsub_rtos/src/runtime_config.c:75-137 | any storage content, decided and described by its bytes: an intact record is loaded as it is, an intact version 1 record gives its five fields and zero flags, anything else the factory settings |
| `ConfigStore.LoadAfterSave` | pubsub_rtos/src/runtime_config.c:105-137 | a complete save loads back exactly; every proper prefix of it, the 24-byte one included, loads as the defaults |
| `ConfigLives.NextBootIsAllOrNothing` | pubsub_rtos/src/runtime_config.c:105-142 | over whole multi-boot runs with failed and interrupted saves, the next boot comes up with the last record sent, one boot on, or with the factory settings and boot count 1, never a mixture |
| `ConfigLives.FirstBootIsFactory` | pubsub_rtos/src/runtime_config.c:134-142 | the first boot from empty storage runs with the factory settings and boot count 1, saved or not |
| `ConfigLives.SuccessfulSaveIsFaithful` | pubsub_rtos/src/runtime_config.c:205-224 | magic, version, size and CRC are consistent whenever the device is on, between a change and its save too; a successful save leaves storage equal to memory; only boots and saves touch storage |
| `ConfigLives.ChangeIsExact` | pubsub_rtos/src/runtime_config.c:153-203 | a setting within its limits (5 to 80, 20 to 50, 1000 to 60000, 500 to 30000) gives a valid record in which only its field and the CRC differ, storage untouched; any other changes nothing |
| `ConfigLives.SetterIsTwoSteps` | pubsub_rtos/src/runtime_config.c:153-203 | a change followed by its save does what the setter promises |
| `ConfigStore.AcceptableIffInRange` | pubsub_rtos/src/runtime_config.c:153-203 | the setters accept exactly the values that keep a record in range |
| `ConfigLives.AlwaysInRangeIff` | pubsub_rtos/src/runtime_config.c:105-203 | all tunables stay in range in every run if and only if what the first boot loads is in range |
| `ConfigStore.DefaultsInRange` | pubsub_rtos/src/runtime_config.c:61-73 | empty storage starts from defaults, which are in range |
| `ConfigStore.LoadedValuesAreNotChecked` | pubsub_rtos/src/runtime_config.c:115-132 | a record with a good CRC and a threshold of 200 is loaded as it is |
| `ConfigStore.DamagedRecordNotLoaded` | pubsub_rtos/src/runtime_config.c:115-137 | a stored record damaged within 32 consecutive bits makes the boot fall back to defaults |
| `ConfigStore.TwoBitsNotLoaded` | pubsub_rtos/src/runtime_config.c:115-137 | nor is a stored record with one or two bits flipped, wherever they are: the boot falls back to defaults |
| `ConfigStore.OldRecordMigratedOrRejected` | pubsub_rtos/src/runtime_config.c:124-137 | a stored version 1 record is migrated when intact and replaced by defaults when one byte was changed |
| `ConfigLives.BootCountCountsBoots` | pubsub_rtos/src/runtime_config.c:139-141 | from empty storage with successful saves the boot count is the number of boots modulo 2^32 |
| `FaultManager.Manager.constructor` | pubsub_rtos/src/fault_manager.c:50-60 | booting, empty history, nothing to debounce against |
| `FaultManager.Manager.HandleEvent` | pubsub_rtos/src/fault_manager.c:62-97 | one event: debounced and nothing changes, or accepted, with state, record and ring stated case by case of topic and first byte |
| `FaultManager.Manager.GetHistory` | pubsub_rtos/src/fault_manager.c:108-119 | copies min(max, 8) slots in ring order and nothing more; 0 for a null buffer |
| `FaultManager.RefinesList` | pubsub_rtos/src/fault_manager.c:62-97 | after any arrivals, state, debounce memory and ring are those of the list of accepted arrivals; debounced ones leave no trace |
| `FaultManager.NextReacts` | pubsub_rtos/src/fault_manager.c:19-97 | after any arrivals an accepted one sets the state and writes the record of its own topic and code, case by case: an outage of the network, not its return; a suppressed one changes nothing |
| `FaultManager.RingInOrder` | pubsub_rtos/src/fault_manager.c:82-88 | read from the write position the ring is exactly the last 8 faults in order; before 8, all of them followed by zero records |
| `FaultManager.StatesSeen` | pubsub_rtos/src/fault_manager.c:36-48 | booting exactly until the first accepted event, recovery never |
| `FaultManager.AnyInfoClearsFault` | pubsub_rtos/src/fault_manager.c:77-80 | an accepted event sets the state to normal if and only if it is no fault, whatever came before |
| `FaultManager.AcceptedRepeatsAreApart` | pubsub_rtos/src/fault_manager.c:72-80 | two events accepted one after the other with equal topic and code are at least 2000 ticks of true time apart, however the counter wrapped |
| `FaultManager.SuppressedIffRecent` | pubsub_rtos/src/fault_manager.c:72-74 | after any arrivals, a repeat is suppressed exactly when it is truly less than 2000 ticks old, if and only if less than a turn of the counter has passed, or the distance modulo a turn is at least 2000 |
| `FaultManager.RightIffDistinguishable` | pubsub_rtos/src/fault_manager.c:72-80 | over a whole run the accepted arrivals are at every point those of debouncing in true time, if and only if every repeat meets that condition |
| `FaultManager.LateRepeatIsLost` | pubsub_rtos/src/fault_manager.c:72-74 | a run in which it fails: the same fault again exactly one turn later |
| `FaultManager.AlternationIsNeverDebounced` | pubsub_rtos/src/fault_manager.c:72-79 | a run without immediate repeats, such as A, B, A, B, is accepted whole |
| `Ticks.ElapsedIsDistance` | pubsub_rtos/src/fault_manager.c:74 | unsigned tick subtraction gives the true distance below one turn of the counter, and never more than it |
| `Ticks.ElapsedOfTurn` | pubsub_rtos/src/fault_manager.c:74 | after exactly one turn no time seems to have passed |
| `Watchdog.Monitor.constructor` | pubsub_rtos/src/watchdog_task.c:32-36 | all timers start at the present tick |
| `Watchdog.Monitor.Drain` | pubsub_rtos/src/watchdog_task.c:41-47 | empties its bus queue and keeps, per known task, the stamp of its last heartbeat |
| `Watchdog.DrainedIsLast` | pubsub_rtos/src/watchdog_task.c:41-47 | a task keeps the stamp of the last heartbeat that has its id in the first payload byte, or what it had |
| `Watchdog.Monitor.CheckTask` | pubsub_rtos/src/watchdog_task.c:51-70 | an overdue task is re-armed and a fault with its id in the first payload byte goes into the queues; otherwise nothing changes |
| `Watchdog.Monitor.Sweep` | pubsub_rtos/src/watchdog_task.c:49-71 | re-arms exactly the overdue tasks; the bus is as after publishing their alarms in order |
| `Watchdog.Monitor.Check` | pubsub_rtos/src/watchdog_task.c:40-71 | one turn of the loop, with the whole new state of array and bus: every queue that hears faults once gets the reports of the stalled tasks, in order and with the next ids, as far as it has room |
| `Watchdog.AlarmIffOverdue` | pubsub_rtos/src/watchdog_task.c:51-67 | an alarm is published for a task exactly when it is overdue |
| `Watchdog.StalledAreOverdue` | pubsub_rtos/src/watchdog_task.c:51-53 | the stalled tasks are exactly those whose timer has run for more than 8000 ticks, each once, in rising order |
| `Watchdog.AlarmsNameTheStalled` | pubsub_rtos/src/watchdog_task.c:59-66 | there is one alarm per stalled task, and its first payload byte is the id of the task |
| `Watchdog.QueueAfterAlarms` | pubsub_rtos/src/watchdog_task.c:49-71 | what the alarms leave in each queue |
| `Watchdog.MachineTellsTrueTime` | pubsub_rtos/src/watchdog_task.c:49-53 | with check gaps P and 8000 + P below the counter width, modular elapsed time is true elapsed time in every run |
| `Watchdog.RaisedIffSilent` | pubsub_rtos/src/watchdog_task.c:49-70 | an alarm is raised if and only if the last 8000 ms saw no start-up, heartbeat or earlier alarm of the task |
| `Watchdog.SilenceReportedInTime` | pubsub_rtos/src/watchdog_task.c:49-73 | a task silent since t is reported by a check in (t + 8000, t + 8000 + P] and by none before |
| `Watchdog.AlarmsAreApart` | pubsub_rtos/src/watchdog_task.c:68-69 | two alarms for one task are more than 8000 ms apart |
| `Telemetry.EncodeJson` | pubsub_rtos/src/telemetry_encoder.c:22-38 | -1 and an untouched buffer for null or size 0; otherwise the line, cut to the buffer and terminated, and its full length |
| `Telemetry.NamesDistinct` | pubsub_rtos/src/telemetry_encoder.c:5-20 | the names of two topics are equal exactly when the topics are, or neither is valid |
| `Telemetry.FirstNames` | pubsub_rtos/src/telemetry_encoder.c:5-20 | each topic is printed under its own name |
| `Telemetry.LastNames` | pubsub_rtos/src/telemetry_encoder.c:5-20 | the other topics likewise, and any number that is no topic as UNKNOWN |
| `Telemetry.LineText` | pubsub_rtos/src/telemetry_encoder.c:28-37 | the text of the line, key by key |
| `Telemetry.DecimalText` | pubsub_rtos/src/telemetry_encoder.c:28-37 | numbers are printed in decimal, without leading zeros |
| `Telemetry.ScanPrint` | pubsub_rtos/src/telemetry_encoder.c:28-37 | whatever a format prints whose conversions are delimited can be read back |
| `Telemetry.ScanEncode` | pubsub_rtos/src/telemetry_encoder.c:28-37 | a reader recovers all nine fields from the line |
| `Telemetry.EncodeInjective` | pubsub_rtos/src/telemetry_encoder.c:28-37 | two events print alike if and only if their printed fields agree |
| `Telemetry.AlwaysFits` | pubsub_rtos/src/app_tasks.c:419-420 | for all field values of the struct the line fits the 192-byte buffer, so it is never cut |

## Left out

- `Bus_PublishFromISR`: it updates counters without locks and may interrupt a task's increment, so order and accounting do not cover it.
- FreeRTOS itself: scheduler, priorities, priority inheritance and fairness; mutexes and queues are taken as specified.
- Locks in the classes: `Pool`, `Bus`, `Store` and `Manager` are sequential, one critical section per method call; interleaving is the subject of the step machines. `FrameLifetime` leaves out the bus locks and so allows more interleavings than the code.
- Depths reached but not read: the fan-out loop reads a queue's depth after the send, and a consumer may run in between; `BusDepth` is about the depths that are read.
- Payload bytes: events keep the first three payload bytes and the frame pointer; `Event_Pack` and `Event_Unpack` are not modelled, and in a `FRAME_READY` event, whose payload is the packed pointer, those three bytes stand as 0.
- Null frame pointers in `FRAME_READY` events: no publisher makes one, so the consumers' null checks are not steps of the machine.
- File I/O: storage is one byte string with complete, refused and interrupted writes; `StorageBackend_AppendLog` is left out, and an error when closing the file is not modelled.
- Struct layout: fixed as packed and little-endian, 28 and 24 bytes.
- `Config_GetSnapshot` and setters running at the same time from several tasks: the application has one writer.
- The command path: setters are called with a value already truncated to the field's width (`pubsub_rtos/src/app_tasks.c:460`, `470`), and the ranges are about that value.
- FaultManager.Manager.HandleEvent: returns the state where the source stores it through `outState`, so the null case is simply an ignored result; the tick is read before the lock, which matters only with several callers, and the application has one.
- Watchdog.SilenceReportedInTime: takes drain and sweep as one step and heartbeats as stamped and queued in one step; heartbeats lost to a full queue count as not given.
- Telemetry.AlwaysFits: the tick width is symbolic and at most 64 bits and a timestamp prints in full; where `unsigned long` is narrower than the tick type the cast (`pubsub_rtos/src/telemetry_encoder.c:32-34`) prints it modulo that width, so reading it back gives the residue.
- Sequence numbers of the health manager: several tasks increment that counter without a lock (`pubsub_rtos/src/app_tasks.c:45`, `63-67`), so nothing is claimed about them beyond the sequential method.
- Simulated sensors, command parser, network, power and command task bodies, `main.c` hooks and all printing.
