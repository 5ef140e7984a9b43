# A verified model of the PMU firmware's messaging core

The PMU sits in an electric-vehicle charger. It collects configuration, session, fault and
status data from the charger's controller over CAN, turns them into request messages, keeps
these on flash until a server has answered, and reports its own link health and uptime. This
project models the four stateful parts of that firmware in Dafny and proves what they promise
over every run.

**A. The persistent message queue.** Messages wait as `message|timestamp` lines in one request
file, two charger fault files and up to three connector fault files, each with a cached
one-byte entry counter. `Entries` holds lines and the rules by which rewrites leave lines out;
`StoreModel` the file operations as functions, and the invariant; `StoreFacts` what the
operations do to individual messages; `Spiffs` (MessageStore.dfy) the loops that do the work.
`DeviceModel` adds dispatch with its two retry counters, message creation, received messages
and the boot gate as steps of a state machine; `DeviceFacts`, `DeviceRuns` and `DeviceTheorems`
prove what every legal run keeps; `DeviceQueues` proves of every run what leaves a file and why,
and that each file is a bounded queue; `DeviceSteps` says what single steps do without naming the
functions that compute them; `DeviceStalls` what stops all publishing and what ends that;
`DeviceTotals` what the running totals in the counters do to a run; `Messaging` is the code over
the global variables.

**B. CAN transfers.** `CanStrings` (strings in 4 + 7 + 7 ... bytes, duplicate filter, one shared
buffer, comma splitting), `CanFacts` (the byte loops in closed form), `CanTransfers` (whole
transfers), `CanSequences` (sequences of them), `CanFields` (where the strings land), `CanReceiving` (CanReceiver.dfy, the code over the buffer
array, `strtok` included), `FaultRecord` (dates in eight slices and the announcing bit).

**C. The three-copy pipeline.** `EventPipeline` (alternating-bit event detection),
`ConfigSync` and `ConfigReporting` (ConfigReporter.dfy, dirty-flag reporting of configuration
changes).

**D. Uptime and link health.** `Uptime`, `LinkHealth`.

Every imperative method is proved equal to a function of its old state, and the laws are proved
about those functions. A file is a sequence of lines; with it goes a ghost trail: everything
ever appended, and what left by which cause.

## What the proofs found

- Retry deletion writes running totals into the counters (`total_remaining`). The invariant
  that survives is "lines at most counter at most cap"; it is enough for every counter-guarded
  lookup and delete. The totals are not harmless, though: the next append to a charger fault
  file evicts its oldest fault exactly when the entries of all files up to it reach 50
  (`StoreFacts.DropThenSaveEvictsIff`). Once the gate is open a request is dropped only while no
  fault is stored (`DeviceTotals.OpenDropsWithoutFaults`). Before that, if fifty requests are left
  from an earlier boot, a restart, a fault and four publishes of the first request cost the device
  that fault when the next one comes (`TotalsEvictOnlyFaultIff`).
- Between a restart and the first ConfigurationData message the connector files have no names
  and the lookup does not see them. It is the plain scan of all files if and only if they are
  named or none of them holds the UUID (`DeviceTheorems.LookupIsScanIff`); a late response to a
  connector fault is taken for valid and ignored (`LateResponseIgnored`).
- While the gate is closed a ChargingSession at the head of the request file is withheld if and
  only if its text does not quote the name ConfigurationData; a session whose start date, which
  comes unchecked from CAN, is that word is sent (`DeviceTheorems.SessionWithheldIff`,
  `MisleadingSessionIsSent`).
- The dispatcher reads only the head of the request file. While a withheld session heads it nothing
  is published, in runs of any length and over restarts, the configuration message that would open
  the gate included. Exactly three steps end that: the session's own response, its eviction from a
  file counted full, or a response to the configuration message of this boot, which a device that
  is stalled since its restart never sent (`DeviceStalls.SessionAtHeadStalls`, `StallEndsIff`,
  `RestartStallsIff`).
- The duplicate filter of CAN continuations remembers the last number for ever. After a text of
  5 to 11 bytes that number is 6, the next transfer is swallowed, and its target stays flagged:
  the text after it goes to whichever of the two targets comes first. From a receiver without
  completion mark a transfer reaches its own target if and only if the number is not 6 and no
  earlier target waits (`CanTransfers.DeliveredIff`); from one that is idle (no mark, no target
  waiting) all texts of a sequence arrive if and only if the number is not 6 and none but the last
  is shorter than 12 bytes (`CanSequences.TransfersRoundTripIff`). `TransferOutcome` says what any
  transfer does to any receiver, and `AnyTransfersOutcome` which targets any sequence serves.
- A broker string is taken from the buffer at its first frame, so beyond four bytes it is stored
  whole only if the buffer already held the rest (`CanTransfers.BrokerStoredIff`). To a receiver
  without mark its transfer does one of three things: with last number 6, nothing more; with a
  target still waiting after a swallowed text, that target gets the broker string; with none
  waiting, the completion mark is left up with nothing to take it down (`BrokerMarksIff`).
- With the mark up and the last number not 6, a text whose target comes first arrives whole if and
  only if it has at most 11 bytes or stale bytes happen to spell its rest; one with exactly one
  waiting target before it if and only if it is longer and version splitting did not cut it; one
  behind two waiting targets never (`WholeDespiteMarkIff`, which also has the case of number 6).
  From an idle receiver with last number not 6, after a broker string longer than 11 bytes the mark
  stays up for as long as only strings of that length follow, and every one of them arrives with
  the tail of the string before it (`CanSequences.BrokerThenMixed`); after a broker string of at
  most 11 bytes a text of at most 11 leaves the mark and its flag up together (`MarkMeetsFlag`).
- A burst of events between two checks publishes its last record if it has an odd number of
  events and nothing if it has an even number (`EventPipeline.BurstPublishesIfOdd`).
- Changes of the two connector-B server limits raise the group flag of connector 1; they are
  reported if and only if something else raises the group of connector 2
  (`ConfigSync.WrongGroupIff`, `ServerBSentIff`).
- EEPROM and RTC states are sent once and never compared (`ConfigSync.NeverComparedNeverSent`).
- The wait for the response to the boot message decides what is reported
  (`ConfigSync.CoveredAtResponseIff`, `WaitDecidesIff`). A change copied during it is lost if the
  flag of its field is down (`EarlyChangeIsLost`); and if a copy finds pmuEnable switched on, no
  field is sent although all are flagged, until some compared field changes (`AnyChangeRecovers`).

## Model

| member | source | states |
|---|---|---|
| Entries.LineParts | main/PMUFinalmain.c:1329 | Cutting a written line at its last bar gives back the timestamp, cutting it at the first gives back the message, when the timestamp, respectively the message, has no bar |
| Entries.KeptInOrder | components/SPIFFS/Dequeueing.c:83-129 | Whatever the rule (UUID, text, whole line), a rewrite keeps the order of the lines it keeps |
| Entries.KeptAndGone | components/SPIFFS/Dequeueing.c:83-129 | The lines kept and the lines removed together are the file, as multisets |
| Entries.KeptMembers | components/SPIFFS/Dequeueing.c:410-435 | A line is kept if and only if the rule does not hit it, and removed if and only if it does |
| Entries.KeptByRule | components/SPIFFS/Dequeueing.c:378-438 | The three rules outright: a line goes if its head parses to a message with the UUID, if the text stands anywhere in it, or if it is the whole line |
| Entries.OldestIsFirstMinimum | main/PMUFinalmain.c:1170-1192 | The first pass of eviction assembles the first line of the smallest timestamp |
| Entries.EvictionRemovesOne | main/PMUFinalmain.c:1141-1235 | Both passes together remove exactly that one line and keep the order of the others, when no line occurs twice |
| Entries.EvictionShrinksIff | main/PMUFinalmain.c:1188-1208 | Without assumptions on timestamps, the file shrinks if and only if the assembled entry is one of its lines |
| StoreModel.PurgeKeeps | components/SPIFFS/Dequeueing.c:83-137 | Any rewrite keeps the store invariant (lines at most counter, lines at most cap, a subsequence of the history, conservation) provided the new counter covers the kept lines |
| StoreModel.MakeRoomKeeps | main/PMUFinalmain.c:1245-1305 | Evicting at capacity leaves counter and file below the cap and keeps the invariant |
| StoreModel.SaveKeeps | main/PMUFinalmain.c:1238-1345 | Appending any message keeps the invariant and leaves the counter at most the cap |
| StoreModel.AnswerFaultKeeps | components/SPIFFS/Dequeueing.c:234-268 | The chain of fault-file deletions keeps the invariant and only ever loses lines |
| StoreModel.DropKeeps | components/SPIFFS/Dequeueing.c:440-504 | Deleting by text from all files keeps the invariant although it stores running totals: they are too big, never too small, and fit in a byte |
| StoreModel.RecountKeeps | main/PMUFinalmain.c:325-345 | Counting keeps the invariant and makes the counters of the counted files exact |
| StoreFacts.GuardedLookupSeesAll | components/SPIFFS/SPIFFSUtils.c:71-100 | A lookup that skips files whose counter is 0 returns what the scan of the same files in the same order returns |
| StoreFacts.AnswerRequestExact | components/SPIFFS/Dequeueing.c:60-145 | A response to a stored request removes exactly that line, charged to responses; every other file and trail is as before |
| StoreFacts.AnswerFaultExact | components/SPIFFS/Dequeueing.c:234-268 | The same for a fault entry, in whichever fault file with a name it waits and however stale the counters before it |
| StoreFacts.AnswerRequestCounts | components/Operation/ValidateMessage.c:162-175 | A response to a request leaves the request counter at the number of lines kept, and every other file and counter as it was |
| StoreFacts.AnswerFaultCounts | components/SPIFFS/Dequeueing.c:234-268 | A response to a fault leaves exact counters for the file that held it and for every fault file before it that was counted, and every other counter as it was |
| StoreFacts.DropLines | components/SPIFFS/Dequeueing.c:440-504 | Deleting by text keeps exactly the lines without the text in every file it sees, and leaves the others alone |
| StoreFacts.DropExact | components/SPIFFS/Dequeueing.c:378-438 | Dropping the text of an entry of a file it sees removes that entry and nothing else, although a line goes as soon as it contains the text |
| StoreFacts.DropCounts | components/SPIFFS/Dequeueing.c:466-484 | For each of the first three files: the counter that retry deletion leaves is the kept lines of all files up to it, or stays if the file was empty; connector counters stay |
| StoreFacts.SaveEvictsIff | main/PMUFinalmain.c:1245-1305 | An append to a non-empty file loses no line if and only if the counter is below the cap |
| StoreFacts.SaveCounts | main/PMUFinalmain.c:1245-1345 | An append below the cap adds one to the counter of its file, one at the cap leaves it at the number of lines, and the line is the file's last |
| StoreFacts.DropThenSaveEvictsIff | components/SPIFFS/Dequeueing.c:473-484 | The first append to a charger fault file after a retry drop loses no fault if and only if the kept lines of all files up to it are below 50 |
| StoreFacts.EvictsHead | main/PMUFinalmain.c:1141-1235 | With timestamps that never go back, eviction takes the head of the file |
| StoreFacts.SavesAreBoundedQueue | main/PMUFinalmain.c:1238-1345 | Appends alone: from an exactly counted file, any batch with timestamps that never go back leaves exactly the latest entries, as many as the cap, oldest first, exactly counted |
| Spiffs.MessageStore.FindOldest | main/PMUFinalmain.c:1170-1186 | The loop of the first pass computes the running minimum |
| Spiffs.MessageStore.CopyOthers | main/PMUFinalmain.c:1198-1208 | The loop of the second pass keeps every line but the given one and counts them |
| Spiffs.MessageStore.RemoveOldestMessage | main/PMUFinalmain.c:1141-1235 | Two passes over the file equal one removal of the oldest entry, and the returned count is that of the lines written back |
| Spiffs.MessageStore.MakeRoomIn | main/PMUFinalmain.c:1245-1305 | Eviction at capacity and the counter it sets |
| Spiffs.MessageStore.SavePayload | main/PMUFinalmain.c:1238-1345 | Evict at capacity, append, count: the whole new store |
| Spiffs.MessageStore.AppendLine | main/PMUFinalmain.c:1329-1345 | The line at the end of its file, and one more on its counter |
| Spiffs.MessageStore.DeleteLineIfFound | components/SPIFFS/Dequeueing.c:378-438 | The loop keeps exactly the lines without the text and returns how many |
| Spiffs.MessageStore.DeleteAndTotal | components/SPIFFS/Dequeueing.c:464-490 | One file of the deletion; the first three counters get the running total, connector counters stay |
| Spiffs.MessageStore.SearchAndDelete | components/SPIFFS/Dequeueing.c:440-504 | The loop over all files, its totals and its counters |
| Spiffs.MessageStore.ExtractUuid | components/SPIFFS/Dequeueing.c:26-58 | The UUID of a message; at three critical repeats the counter is reset and an unparsable message deleted everywhere |
| Spiffs.MessageStore.DeleteEntryByUuid | components/SPIFFS/Dequeueing.c:147-232 | The rewrite by UUID and whether it found the entry; extracting UUIDs meanwhile deletes nothing, because the critical counter is below 3 |
| Spiffs.MessageStore.HandleResponse | components/Operation/ValidateMessage.c:164-170 | A response removes its entry from the request file and sets the counter |
| Spiffs.MessageStore.HandleFaultResponse | components/SPIFFS/Dequeueing.c:234-268 | The fault files are rewritten in order, skipping those counted 0, until one held the entry |
| Spiffs.MessageStore.SearchUuidInFile | components/SPIFFS/SPIFFSUtils.c:31-69 | The action of the first line with the UUID, and the scan changes nothing |
| Spiffs.MessageStore.GetActionFromUuid | components/SPIFFS/SPIFFSUtils.c:71-100 | The lookup over the files that are counted and, for connectors, named; it changes nothing |
| Spiffs.MessageStore.CountFileEntries | main/PMUFinalmain.c:325-345 | The number of lines, as a byte |
| Spiffs.MessageStore.RecountFiles | main/PMUFinalmain.c:1530-1540 | Every file from the given one on, as far as it has a name, is recounted |
| Spiffs.MessageStore.NameConnectorFiles | main/PMUFinalmain.c:450-457 | The connector files get their names and their counts |
| DeviceFacts.NewLine | components/Operation/FormMessage.c:53-96 | A line the device writes is read back with its own UUID and action, and fits the file it is routed to |
| DeviceFacts.SaveKeepsEntries | main/PMUFinalmain.c:1238-1345 | Appending a message with an unused UUID keeps all entries told apart by UUID, faults in fault files, and no critical entry dropped |
| DeviceFacts.DropKeepsEntries | components/SPIFFS/Dequeueing.c:440-504 | Dropping a stored non-critical entry keeps the same |
| DeviceFacts.AnswersKeepEntries | components/Operation/ValidateMessage.c:160-175 | Both kinds of response keep the same |
| DeviceRuns.DispatchKeepsLog | main/PMUFinalmain.c:1662-1737 | A dispatch keeps the retry counter below 3, repeats spaced, and every drop earned by four publishes in a row |
| DeviceRuns.DispatchKeepsStore | main/PMUFinalmain.c:1693-1727 | A dispatch keeps the store, its entries and the critical counter at most 2 |
| DeviceRuns.DispatchKeepsGate | main/PMUFinalmain.c:1664-1681 | A dispatch keeps the account of what was sent: by its own action, no fault before the gate opens, a session then only if it quotes the configuration's name, and after it a fault exactly when one waits |
| DeviceRuns.CreateKeeps | main/MqttFunctions.c:1346-1368 | Creating and storing any message, with the capture of the boot UUID, keeps the device invariant |
| DeviceRuns.ReceiveKeeps | components/Operation/ValidateMessage.c:12-175 | Any received message whatsoever keeps the device invariant |
| DeviceTheorems.FreshOk | main/PMUFinalmain.c:1383-1545 | The device with empty files satisfies the invariant |
| DeviceTheorems.StepKeeps | main/PMUFinalmain.c:1623-1737 | Every step (boot, dispatch, creation, reception, restart) keeps the invariant |
| DeviceTheorems.StoreInEveryRun | components/SPIFFS/Dequeueing.c:440-504 | In every run each file's lines are at most its cached counter (for a connector file without a name a value that nothing reads) and its cap, are a subsequence of everything appended, and everything appended is exactly present, answered, evicted or dropped |
| DeviceTheorems.LookupIsScanIff | components/SPIFFS/SPIFFSUtils.c:71-100 | The lookup is the plain scan of all files if and only if the connector files are named or none of them holds the UUID |
| DeviceTheorems.LookupInEveryRun | components/SPIFFS/SPIFFSUtils.c:71-100 | That condition in every run, and the files are named exactly from this boot's first configuration message on |
| DeviceTheorems.RetriesInEveryRun | main/PMUFinalmain.c:1693-1727 | In every run both retry counters are at most 2 between steps, every recorded drop follows four consecutive publishes of its text, a repeat comes at least 20000 ms after the previous attempt, and no critical entry was ever dropped for retries |
| DeviceTheorems.OrderInEveryRun | main/PMUFinalmain.c:1664-1681 | In every run, of everything attempted since the last restart (a restart forgets the attempts; earlier boots are runs of their own), by the action its own text parses to: no fault before the gate opens, a session then only if it quotes the configuration's name, and after it a fault exactly when some fault file held an entry |
| DeviceSteps.PickIff | main/PMUFinalmain.c:1664-1681 | A text is next if and only if, with the gate open, it heads the first fault file that is not empty, or, with the gate closed or no fault stored, it heads the request file, unless the gate is closed and it is a session that does not quote the configuration's name |
| DeviceSteps.DispatchIff | main/PMUFinalmain.c:1662-1737 | A text is handed to publish if and only if the device is online, it is next, and it was not the last one sent less than 20000 ms before; a failed publish leaves files and counters alone, and a dispatch without attempt changes nothing |
| DeviceSteps.PublishOutcome | main/PMUFinalmain.c:1693-1727 | What a publish does to both retry counters and the files: the third repeat in a row of an unimportant message drops its text, the third critical repeat resets its counter and drops the text only if it does not parse, any other message resets the first counter alone |
| DeviceSteps.CreateOutcome | components/Operation/FormMessage.c:53-96 | Which messages are created when, and that each goes to the end of its own file (request, offline, charger or connector faults), laid out as [2,"uuid","name",payload] with its timestamp, the other files keeping their lines |
| DeviceSteps.CreateBeside | main/PMUFinalmain.c:446-461 | The first configuration message of a boot is remembered and ends the boot, a configuration message names and counts the connector files, and no creation touches anything else |
| DeviceSteps.AdvanceIff | main/PMUFinalmain.c:1623-1655 | The boot flag moves from 1 only when the device is ready, from 2 always, to 3 |
| DeviceSteps.RebootOutcome | main/PMUFinalmain.c:1530-1540 | A restart keeps lines and history, counts the first three files, unnames the connector files with their counters as they were, and forgets everything else |
| DeviceSteps.PayloadCodes | components/Operation/ValidateMessage.c:115-175 | The reply code of each action with and without a valid timestamp |
| DeviceSteps.ValidIff | components/Operation/ValidateMessage.c:12-219 | Exactly which inbound messages are answered as valid, elements counted modulo 256 |
| DeviceSteps.ErrorCodes | components/Operation/ValidateMessage.c:12-219 | Every other message is answered by its first fault in the order of the checks, and only a response that gets as far as its payload can change the device |
| DeviceSteps.LookupFirst | components/SPIFFS/SPIFFSUtils.c:31-100 | The lookup returns the action of the first line with the UUID in the first counted file that has one |
| DeviceTheorems.SessionWithheldIff | components/SPIFFS/SPIFFSUtils.c:144-153 | While the gate is closed a session at the head is withheld if and only if its text does not quote the configuration's name |
| DeviceTheorems.MisleadingSessionIsSent | components/SPIFFS/SPIFFSUtils.c:145-150 | A run in which a session whose startDateTime is that word is attempted before the gate opens, whatever the rest of its payload |
| DeviceTheorems.GateOpensOnlyOnBootResponse | components/Messages/MQTT.c:103-134 | The only step that opens the gate is a valid response carrying this boot's configuration UUID while exactly that message is still stored |
| DeviceTheorems.BootResponseOpensIff | components/Messages/MQTT.c:103-134 | A response to this boot's stored configuration message opens the gate if and only if its timestamp is valid |
| DeviceTheorems.GateMovesForward | main/PMUFinalmain.c:1623-1655 | The boot flag only moves 1, 2, 3, 0, the last step on creating the configuration message; an open gate stays open until a restart |
| DeviceTheorems.NoPeriodicWhileClosed | main/PMUFinalmain.c:486-492 | In any run without a restart that ends with the gate closed, no periodic message was appended |
| DeviceStalls.SessionAtHeadStalls | main/PMUFinalmain.c:1673-1679 | In every run of a device whose request file is headed by a ChargingSession while the gate is closed, of any length and with any messages and restarts: up to step n it stays so with the same line, no dispatch does anything, and no attempt is made (a restart forgets earlier ones); and step n, if the run has it, is one of the three that end the stall |
| DeviceStalls.StallEndsIff | main/PMUFinalmain.c:1673-1679 | One step ends the stall if and only if it is the session's own response taking it out, a created message evicting it from a file counted full, or a response with this boot's UUID opening the gate |
| DeviceStalls.RestartStallsIff | main/PMUFinalmain.c:1673-1679 | A restart enters that state if and only if a ChargingSession heads the request file |
| DeviceTheorems.ResponseOutcome | components/Operation/ValidateMessage.c:93-175 | A response to a stored entry removes exactly that entry from its own file, leaves that file's counter exact, with those of the counted fault files before it, and all others as they were, and changes nothing else but the gate; unless its payload is invalid and the action critical, or the entry waits in a connector file without a name: then nothing changes |
| DeviceTheorems.LateResponseIgnored | components/SPIFFS/SPIFFSUtils.c:89-96 | After a restart a response to a connector fault is answered as valid, and the fault stays |
| DeviceTheorems.LateResponseReached | main/PMUFinalmain.c:310-323 | A run to a store in which the scan finds a fault that the lookup misses |
| DeviceTheorems.UnknownResponse | components/Operation/ValidateMessage.c:115-125 | A message whose UUID matches no stored entry changes nothing |
| DeviceTheorems.AnsweredIsGone | components/SPIFFS/Dequeueing.c:83-129 | After an accepted response no entry has its UUID |
| DeviceTheorems.ReceiveIsIdempotent | components/Operation/ValidateMessage.c:12-175 | Receiving any message twice in a row is receiving it once |
| DeviceQueues.RepeatedResponseIsIdle | components/Operation/ValidateMessage.c:93-175 | After an accepted response, in every later run in which no created message has its UUID, a response with that UUID changes nothing, whatever else it holds |
| DeviceQueues.DispatchDrops | main/PMUFinalmain.c:1710-1721 | A dispatch leaves every line where it is, or drops exactly one: no critical entry, alone, on record, and its text was published four times in a row |
| DeviceQueues.StepDrops | components/SPIFFS/Dequeueing.c:440-504 | No other step drops anything or records a drop |
| DeviceQueues.DroppedInEveryRun | main/PMUFinalmain.c:1693-1727 | In every run, whatever line a file lost to retries was lost in one such dispatch of the run |
| DeviceQueues.StepMoves | main/PMUFinalmain.c:1238-1345 | Every step of the device does to every file one of: nothing, take out one line (answered by a received message that names its UUID, dropped by a dispatch), append the created message, or evict the first of the oldest lines of a file counted full and append it; the history says which |
| DeviceQueues.EvictionInEveryRun | main/PMUFinalmain.c:1141-1235 | In every run, what eviction would take out of a file is exactly one line, the first of the smallest timestamp, and the head if the file's timestamps never went back |
| DeviceQueues.QueueInEveryRun | main/PMUFinalmain.c:1141-1345 | In every run, with any responses, drops, inexact counters and restarts, a file is a bounded queue: step i of the run moves it exactly by moves[i], so a line enters at the end, leaves alone for the cause on record, or is evicted from a file counted full for the new one; and every evicted line is the head if the file's timestamps never went back over the run |
| DeviceQueues.AnswerMakesRoom | components/SPIFFS/Dequeueing.c:234-268 | After an accepted response to an entry of a file its counter is exact and one below the lines before, so the next append to that file evicts nothing, even from a full one |
| DeviceTotals.OpenDropsWithoutFaults | main/PMUFinalmain.c:1664-1727 | With the gate open, a dispatch that drops a line drops it from the request file, and no file holds a fault then |
| DeviceTotals.TotalsEvictOnlyFaultIff | components/SPIFFS/Dequeueing.c:473-484 | In the run restart, fault, four publishes of the first left-over request: that request is dropped, and the next fault evicts the only stored one if and only if 50 or more requests were left |
| DeviceTotals.LeftoversReached | main/PMUFinalmain.c:486-492 | A run from an empty device, with the gate opened, that leaves any number up to 100 of periodic messages and no fault |
| Messaging.Messenger.GetQueuedFault | components/SPIFFS/SPIFFSUtils.c:158-216 | The head of the first fault file that is seen and not empty, none if all are empty |
| Messaging.Messenger.GetQueuedRequest | components/SPIFFS/SPIFFSUtils.c:102-156 | The head of the request file and its importance by quoted action name |
| Messaging.Messenger.PickMessage | main/PMUFinalmain.c:1664-1681 | Fault first once the gate is open, else the request head, a session only once the gate is open |
| Messaging.Messenger.CountRepeatedMessage | main/PMUFinalmain.c:1693-1727 | Both retry counters and the deletions at their limits |
| Messaging.Messenger.DispatchNext | main/PMUFinalmain.c:1662-1737 | One dispatch: throttle, attempt, counters, last message |
| Messaging.Messenger.CreateJsonCall | components/Operation/FormMessage.c:53-96 | The message text, and the capture of the boot UUID that ends the boot |
| Messaging.Messenger.CreateMessage | main/PMUFinalmain.c:446-461 | A task's guarded creation, the file it goes to, and the recount of the connector files |
| Messaging.Messenger.ProcessConfigurationData | components/Messages/MQTT.c:103-134 | The gate opens on this boot's UUID with a valid timestamp |
| Messaging.Messenger.ReceiveCallResult | components/Operation/ValidateMessage.c:93-177 | The CALLRESULT branch with its checks and deletion rule |
| Messaging.Messenger.ReceiveCallError | components/Operation/ValidateMessage.c:178-219 | The CALLERROR branch looks up and deletes nothing |
| Messaging.Messenger.ValidateJson | components/Operation/ValidateMessage.c:12-177 | The checks and the branch by number of elements, counted in a byte |
| Messaging.Messenger.AdvanceBoot | main/PMUFinalmain.c:1623-1655 | The two boot steps of the main loop |
| Messaging.Messenger.Restart | main/PMUFinalmain.c:1530-1540 | Globals start over, files stay and are counted |
| CanFacts.SplitUndoesJoin | main/CAN.c:356-405 | Splitting at commas undoes joining non-empty comma-free parts |
| CanTransfers.TransferOutcome | main/CAN.c:314-457 | What a transfer of any NUL-free text of 5 to 99 bytes, to any target, its frames in order and each any number of times in a row (a broker's first frame once), does to any receiver, whatever flags and mark are up: the strings it completes go one by one to the flagged targets in order; which flags stay up, and whether the mark does |
| CanTransfers.QuietOutcome | main/CAN.c:314-457 | Without mark: swallowed with one more flag if the last continuation number is 6, else handed over once and whole to the first flagged target |
| CanTransfers.TransferRoundTrip | main/CAN.c:314-457 | With no flag up and a last number other than 6 it reaches its own target, and that alone |
| CanTransfers.DeliveredIff | main/CAN.c:316-329 | From a receiver without mark a transfer reaches its own target if and only if the last number is not 6 and no earlier target waits |
| CanSequences.TransfersOutcome | main/CAN.c:314-457 | Any sequence of transfers, exactly: which texts arrive, at which targets, and which flags stay up |
| CanSequences.AnyTransfersOutcome | main/CAN.c:314-457 | Any sequence of transfers, broker strings included, to any receiver: which targets are served in which order, which flags stay up, the last number, and whether the mark is up |
| CanSequences.TransfersRoundTripIff | main/CAN.c:314-457 | From an idle receiver all texts arrive in order at their own targets if and only if there are none, or the last number is not 6 and none but the last text is shorter than 12 bytes |
| CanSequences.SwallowedThenNext | main/CAN.c:316-457 | The text after a swallowed one goes to whichever of the two targets comes first, or is swallowed too |
| CanTransfers.VersionsArrive | main/CAN.c:346-405 | From an idle receiver whose last number is not 6, five comma-joined versions land in the five version fields in order |
| CanTransfers.CredentialsArrive | main/CAN.c:1168-1189 | From an idle receiver whose last number is not 6, "ssid,password" lands in the two Wi-Fi fields |
| CanFields.HeaderRaises | main/CAN.c:790-883 | Which parameter number of a first frame raises which flag |
| CanFields.HandOverOrder | main/CAN.c:346-457 | A completed string goes to the first waiting target in the order versions, OCPP URL, Wi-Fi, second serial number, date and time |
| CanFields.TokensSplit | main/CAN.c:356-405 | A comma anywhere separates the parts before it from those after it |
| CanFields.VersionFields | main/CAN.c:346-405 | Part k of any version string goes to field k of the five, cut at 44 bytes; fields without a part and all other fields stay |
| CanFields.WifiFields | main/CAN.c:1168-1189 | The first two parts of the first 99 bytes go to ssid and password, cut at 49 and 99; all other fields stay |
| CanFields.OtherFields | main/CAN.c:415-457 | OCPP URL, broker, second serial number and date go into their own fields, cut at 99, 99, 25 and 24 bytes; all other fields stay |
| CanFields.UrlArrives | main/CAN.c:415-421 | From an idle receiver whose last number is not 6, an OCPP URL lands whole in its field and nothing else changes |
| CanFields.SerialArrives | main/CAN.c:440-446 | The same for the second serial number, of which 25 bytes are kept |
| CanFields.DateTimeArrives | main/CAN.c:447-457 | The same for date and time, of which 24 bytes are kept |
| CanFields.BrokerField | main/CAN.c:830-843 | From its first frame on the broker's field, and no other, holds the first four bytes and whatever the buffer held behind them; the whole string if that was its rest |
| CanFields.ShortStringWaits | main/CAN.c:790-883 | A string of one to four bytes is never handed over by its own frame: a broker is stored whole, any other only waits with its flag up |
| CanTransfers.BrokerStoredIff | main/CAN.c:830-843 | A broker string longer than its first frame is stored whole if and only if the buffer already held the rest |
| CanTransfers.BrokerLeavesMark | main/CAN.c:330-343 | A broker string of any declared length from 5 to 99, to a receiver without mark, followed by any continuations whose neighbours are numbered differently: the mark is left up if and only if these reach its length and no target waits; if one waits, the first gets a string then |
| CanTransfers.BrokerMarksIff | main/CAN.c:830-846 | A sender's broker transfer to a receiver without mark leaves the mark up if and only if the duplicate filter lets its first continuation through and no target waits; the first waiting target gets the broker string instead |
| CanTransfers.ArrivesAlone | main/CAN.c:338-457 | With no other target waiting, a text arrives at its target if and only if it is all that its transfer hands over |
| CanTransfers.WholeDespiteMarkIff | main/CAN.c:338-457 | With the mark up, whatever targets wait: a text whose target comes first arrives whole if and only if it has at most 11 bytes or the stale buffer spells its rest; after a last number 6, if and only if it is longer, repeats bytes 4 to 11 in the next seven, and the stale buffer spells its rest; with one target before it, if and only if the last number is not 6, it is longer than 11 bytes, and no version splitting cuts those; with more, never |
| CanFacts.MarkedAt | main/CAN.c:356-405 | strtok overwrites exactly the commas that follow something else |
| CanSequences.MarkMeetsFlag | main/CAN.c:316-457 | After a broker string and then a text, both of at most 11 bytes, from an idle receiver whose last number is not 6, the mark and the text's flag are both up |
| CanSequences.BrokerThenText | main/CAN.c:830-846 | From an idle receiver whose last number is not 6: after a broker string longer than 11 bytes, a text longer than 11 bytes arrives with the broker's tail in place of its own, and the mark is up again |
| CanSequences.MixedForEver | main/CAN.c:338-457 | Once the mark is left up with a string longer than 11 bytes in the buffer and no target waiting, it stays up through any sequence of such transfers, brokers included, and each text arrives with the tail of the string before it |
| CanSequences.BrokerThenMixed | main/CAN.c:830-846 | A broker string longer than 11 bytes brings an idle receiver whose last number is not 6 there |
| CanReceiving.CanReceiver.CopyFirstBytes | main/CAN.c:795-798 | The loop of a first frame copies up to four bytes |
| CanReceiving.CanReceiver.CopyNextBytes | main/CAN.c:330-343 | The loop of a continuation, with the terminator and the mark at the declared length |
| CanReceiving.CanReceiver.SplitVersions | main/CAN.c:350-405 | The strtok loop in the buffer assigns the version fields and leaves terminators where the commas after parts were |
| CanReceiving.CanReceiver.ParseWifi | main/CAN.c:1168-1189 | The first two parts of a copy go to ssid and password |
| CanReceiving.CanReceiver.AssignString | main/CAN.c:346-457 | The string in the buffer goes into the fields of its target, cut to their sizes; CanFields says which |
| CanReceiving.CanReceiver.HandOver | main/CAN.c:346-457 | The completed string goes to one target, whose flag and the mark come down; the configuration is that of all strings delivered so far |
| CanReceiving.CanReceiver.HandleContinuation | main/CAN.c:314-457 | A continuation: duplicate filter, copy, hand-over to the first flagged target |
| CanReceiving.CanReceiver.CopyBroker | main/CAN.c:830-846 | The broker field is copied from the buffer at the first frame, stale bytes included |
| CanReceiving.CanReceiver.HandleHeader | main/CAN.c:790-883 | The first frame of a string: flag, declared length in a byte, index reset, copy |
| CanReceiving.CanReceiver.HandleChargerConfig | main/CAN.c:308-883 | The string part of the handler, frame by frame |
| FaultRecord.ByteIsLast | main/CAN.c:1361-1561 | Each date byte is that of the last frame received with its number, or was there before |
| FaultRecord.ToggleIsParity | main/CAN.c:1540 | The announcing bit is the parity of the deliveries of frame 8 |
| FaultRecord.SameLastSameDates | main/CAN.c:1361-1561 | Frame sequences with the same last frame of each number leave the same dates: repeats and reorderings of different numbers do not matter |
| FaultRecord.HeaderIsLast | main/CAN.c:1361-1402 | Fault type and player are the low and high half of byte 1 of the last first slice, the fault code is the last one other than 0xFF |
| FaultRecord.RecordArrives | main/CAN.c:1361-1561 | The eight slices of any record leave exactly its type, player, code and both dates, and flip the announcing bit |
| FaultRecord.FaultLog.HandleFaultLog | main/CAN.c:1361-1561 | The switch over slice numbers writes exactly the bytes of its slice, and flips the bit on slice 8 |
| EventPipeline.PublishesBounded | main/PMUFinalmain.c:517-525 | Under any interleaving of frames, events, copies and checks, publishes never exceed events and have the parity of the version last accepted |
| EventPipeline.PublishesInEveryRun | main/PMUFinalmain.c:517-525 | The same for every run from start-up, counted against its events |
| EventPipeline.EveryStageIsNeeded | main/PMUFinalmain.c:517-525 | From a state in which all copies agree, a run without a copy of the first kind, or of the second, or without an enabled check, publishes nothing, whatever events it holds |
| EventPipeline.RoundsPublishAll | main/PMUFinalmain.c:549-556 | If a copy, a copy and an enabled check fall, in this order among any others, between each event and the next frame, every event is published once, in order, with its own record |
| EventPipeline.RoundsPublishAsMany | main/PMUFinalmain.c:549-556 | Publishes equal events even when frames of the next record arrive while an event is still being copied |
| EventPipeline.BurstPublishesIfOdd | main/CAN.c:1231-1232 | A burst of events before a check publishes its last record if it is odd, nothing if it is even |
| EventPipeline.Tasks.CompleteEvent | main/CAN.c:1334-1337 | The CAN task completes a record and flips its bit |
| EventPipeline.Tasks.CopyToIpc | main/PMUFinalmain.c:1003-1014 | Record and bit go to shared memory together |
| EventPipeline.Tasks.CopyToMqtt | main/PMUFinalmain.c:438-443 | Record and bit go to the MQTT task together |
| EventPipeline.Tasks.PublishIfChanged | main/PMUFinalmain.c:517-525 | A changed bit is remembered and the record published, once |
| ConfigSync.WrongGroupIff | main/PMUFinalmain.c:834-852 | Of the fields both compared and reported, exactly the two connector-B server limits raise flags that do not suffice to send them |
| ConfigSync.TrackedIff | main/PMUFinalmain.c:564-861 | The fields whose changes the code reports, listed outright (all but local ones, EEPROM and RTC states and the two connector-B server limits), are those compared, reported, and sent under the flags they raise |
| ConfigSync.CopyOutcome | main/PMUFinalmain.c:1740-1754 | A copy after the exchange raises a field's flag if and only if the field differs and is compared, each group flag if and only if one of the fields listed for it differs, and makes a message due if and only if any does |
| ConfigSync.SendOutcome | main/MqttFunctions.c:997-1232 | A due message carries a field if and only if its flag and its groups are up, pmuEnable is on (but for pmuEnable itself) and it is no unset limit; which flags come down, and what the receiver then holds |
| ConfigSync.CoveredInEveryRun | main/MqttFunctions.c:1018-1225 | For every field but the local ones, EEPROM and RTC states and the connector-B server limits, in every run from an exchanged state: a field of the receiver's copy that agrees, is still unset, or has its own and all its group flags up with a message due, goes on to do so; if it disagrees while reporting is enabled, a message is due |
| ConfigSync.Converges | main/PMUFinalmain.c:1740-1754 | After any such run, one copy and one message with reporting enabled make that field of the receiver equal to the configuration that arrived last |
| ConfigSync.CoveredFromBoot | main/PMUFinalmain.c:1740-1754 | The same in every run from boot: any arrivals and copies, the boot message, any wait in which no copy finds this field or pmuEnable changed (other fields may change, arrivals and further messages allowed), the response, then any run |
| ConfigSync.CoveredAtResponseIff | main/PMUFinalmain.c:1740-1754 | After any wait, a field is covered at the response if and only if the receiver's value agrees, or pmuEnable is off and the boot message left the field flagged |
| ConfigSync.FlaggedAfterBootIff | main/MqttFunctions.c:1018-1225 | Which fields the boot message leaves flagged: all but pmuEnable if pmuEnable was off, else only an unset charger power |
| ConfigSync.WaitDecidesIff | main/PMUFinalmain.c:1742-1744 | In every run after the wait in which no compared field changes, a field agrees at the end if and only if it agreed when the wait ended, flagged or not |
| ConfigSync.AnyChangeRecovers | main/PMUFinalmain.c:564-861 | A field still flagged is covered again by the first copy that finds any compared field changed |
| ConfigSync.BootWaits | main/PMUFinalmain.c:1742-1744 | Before the boot message nothing that arrives or is copied is lost |
| ConfigSync.ServerBSentIff | main/PMUFinalmain.c:834-852 | A changed connector-B server limit is sent by the next message if and only if the group of connector 2 is raised by something else |
| ConfigSync.EarlyChangeIsLost | main/PMUFinalmain.c:1742-1744 | A change copied before the exchange is never reported in any run in which the field does not change again |
| ConfigSync.NeverComparedNeverSent | main/MqttFunctions.c:1216-1224 | No run reports a change of the EEPROM or RTC state after their first message |
| ConfigReporting.ListedOnce | main/MqttFunctions.c:1018-1225 | Every field is listed in exactly one section of the message |
| ConfigReporting.OpenIsEmitted | main/MqttFunctions.c:1018-1224 | Building the message section by section under the nested tests sends exactly the fields whose groups are all up |
| ConfigReporting.Reporter.CheckConfigDataChanges | main/PMUFinalmain.c:564-861 | Field by field: flagged afterwards if and only if it was before, or it differs and is neither the EEPROM nor the RTC state; with the groups and the due message that go with it |
| ConfigReporting.Reporter.CopyIpcToMqtt | main/PMUFinalmain.c:1740-1754 | Compare once exchanged, copy, and make a message due if anything changed |
| ConfigReporting.Reporter.PrepareMqttSendConfigData | main/MqttFunctions.c:997-1232 | The message's sections in order; flags of sent fields and of passed groups come down, those of unset limits stay |
| ConfigReporting.Reporter.ConfigurationDataCase | main/PMUFinalmain.c:446-461 | A due message is sent and no longer due |
| Uptime.EveryTickCounts | main/PMUFinalmain.c:463-483 | After any passes, persisted plus pending is the boot value plus the ticks seen, for all four counters; websocket ticks are the internet-up ticks; pending never exceeds 31, so it never wraps |
| Uptime.TicksAreExact | main/PMUFinalmain.c:463-483 | After any passes, persisted plus pending is the boot value plus all ticks without wrapping, while the sums fit 32 bits |
| Uptime.TicksAreSampled | main/PMUFinalmain.c:526-546 | The ticks are the 20th, 40th ... of the counted passes: down for those without internet, up for those with it, websocket up or down for those with internet by its state |
| Uptime.FlushEvery601 | main/PMUFinalmain.c:463-483 | Writes to NVS happen on every 601st pass: what is stored is the boot value plus all ticks before the last such pass, and the rest is pending |
| Uptime.FlushShows | main/PMUFinalmain.c:469-483 | Writing the pending ticks to NVS changes no sum |
| Uptime.CarryIsAddition | main/MqttFunctions.c:1294-1309 | Carrying n seconds into the conversion of t is the conversion of t + n |
| Uptime.CarryAgreesIff | components/NVS_lib/Fetch_NVSdata.c:43-53 | On 32-bit totals the two agree if and only if the sum does not wrap |
| Uptime.DurationIsConvert | main/MqttFunctions.c:1311-1319 | Both conversions are the same function |
| Uptime.ReplyIsExact | main/MqttFunctions.c:465-551 | After any passes since boot, a component-status reply shows for each of the four counters, as a normalised time, the boot value plus the number of every 20th counted pass that saw internet or websocket in that state, while these fit in 32 bits |
| Uptime.TimeDuration.IncrementTime | main/MqttFunctions.c:1294-1309 | The carry through the four fields |
| Uptime.TimeDuration.ConvertSecondsToTime | components/NVS_lib/Fetch_NVSdata.c:43-53 | The stepwise conversion |
| Uptime.TimeDuration.ConvertToTimeDuration | main/MqttFunctions.c:1311-1319 | The direct conversion |
| Uptime.UptimeTask.constructor | components/NVS_lib/Fetch_NVSdata.c:171-229 | Totals start from NVS |
| Uptime.UptimeTask.RunPass | main/PMUFinalmain.c:463-546 | One pass: flush every 601st, tick every 20th counted one, byte counters |
| Uptime.UptimeTask.ComponentStatus | main/MqttFunctions.c:465-551 | The four times of the reply, each from the stored total and the pending ticks |
| LinkHealth.FineIffHeard | main/PMUFinalmain.c:937-966 | A link is reported fine if and only if one of the last 3001 passes received a frame of its own |
| LinkHealth.CanTask.UpdateLink | main/PMUFinalmain.c:937-949 | One update of mark, miss counter and state |
| LinkHealth.CanTask.UpdateHealth | main/PMUFinalmain.c:937-966 | All links at once: the MCU's and each of the ten power modules' states are exact |
| LinkHealth.CanTask.ReceiveFrame | main/PMUFinalmain.c:874-917 | A frame marks the link it speaks for and no other |

## Assumptions

- Each file function, each mutex-protected copy and each task-loop body is one atomic step.
- Parsing is a function `parse`, timestamps are ordered by a function `when`; both are
  arbitrary, and theorems about created messages assume only that the parser undoes the printer
  on the message at hand. UUIDs of new messages are fresh, and no text quotes another's UUID.
- New timestamps contain no bar and lie before the eviction sentinel; created messages contain
  no bar. The store invariant itself needs only the former.
- Clocks do not go back within one boot, and milliseconds stay below 2^64.
- File opens, renames and allocations succeed; a line fits every buffer that reads it, has no
  carriage return or newline inside, and lines are read back as written.
- At most three connectors, and a fault's player names an existing one.

## Left out

- Spiffs.MessageStore.DeleteAndTotal: the totals for the files at positions 3 and 4 go to connector entries 3 and 4, outside the table for three connectors; the model leaves all connector counters unchanged.
- Spiffs.MessageStore.DeleteEntryByUuid: one method for the two copies of this loop (handle_response_message and delete_fault_file_entry_by_uuid), which differ only in file names and logging.
- Messaging.Messenger.CreateMessage: the further guards of the tasks (pmuEnable, the network being online, valueofChangedParameter, received frames, the event bits) only withhold creations; runs may create whenever the boot flag and the gate allow.
- Spiffs.MessageStore.SearchAndDelete: while the connector files have no names the firmware forms their paths from a null table here, in the fault-response chain and when storing a connector fault; the model leaves these files unseen, and lets a connector fault be stored.
- DeviceStalls.SessionAtHeadStalls: which of the three steps comes, and when, is up to the surroundings; a full file evicts its oldest entry, which need not be the session at its head.
- CanReceiving.CanReceiver.HandleChargerConfig: declared lengths of 100 to 255 bytes, which would overrun the 100-byte buffer, are excluded; the numeric parameters (limits, power settings, tariff, EEPROM and RTC states) and the acknowledgement frames are plain decoding and are not modelled.
- ConfigReporting.Reporter.CheckConfigDataChanges: the repeated comparison blocks are loops over tables of the same fields; valueofChangedParameter and the power-module versions (whose reported text also depends on link failure) are not modelled.
- ConfigSync.Converges: the receiver applies messages as created; that they reach it is the business of the queue, which may evict the oldest of 100.
- Uptime.CarryIsAddition: fields are unbounded; with 32-bit fields and at most 255 seconds added no field wraps, and the percentage computed from the totals is not modelled.
- FaultRecord.FaultLog.HandleFaultLog: the test of the first byte against 0xFF and 0xF is always true in the source and is dropped; acknowledgement frames are not modelled.
- LinkHealth.CanTask.ReceiveFrame: identifiers and their links only; what the frames carry is not modelled.
- Session records: their frame assembly is the same copying of fixed slices as for fault records; the bit they flip is covered by EventPipeline.
- Wi-Fi, MQTT client, SNTP, TWAI, NVS and SPIFFS drivers: publish is a reported success or failure, NVS holds what was last written.
- Scaled-value decoding, and building of periodic and component-status JSON: field copying without state.
- Liveness of the request queue beyond the stall above: the dispatcher only ever reads the head.
- Preemption inside a file operation: the code takes no lock there, so interleavings inside one are not modelled.
