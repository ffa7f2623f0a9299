# Weather station: a verified model

The repository is a small weather station server. Sensors speak Bluetooth Mesh; a router hands their messages to
whoever asked for them; batches of readings are logged in a database and kept in a map in memory; clients ask for
overviews, logs and backups over gRPC, and readings go out over MQTT. This project models the five parts of it that
keep state over many steps, and proves what they keep over every run.

| part | files |
|---|---|
| message router | `Drain.dfy`, `Router.dfy`, `RouterSafety.dfy`, `RouterDelivery.dfy`, `RouterPanics.dfy`, `RouterIsolation.dfy`, `RouterOneshots.dfy`, `RouterRequests.dfy`, `KindDrains.dfy`, `RouterAsWritten.dfy`, `SlotSearch.dfy`, `MessageQueue.dfy` |
| ids, labels and logs against the sensor map | `SensorLog.dfy`, `Store.dfy`, `StoreLabels.dfy`, `Context.dfy`, `Backup.dfy` |
| batches and provisioning | `Mesh.dfy`, `Provisioning.dfy` |
| MQTT framing | `Mqtt.dfy`, `MqttFraming.dfy` |
| Bluetooth Mesh access messages | `BitValues.dfy`, `Proto.dfy`, `SigMessages.dfy` |

`Common.dfy` holds the shared types.

The router and the store are each modelled twice: as a state machine whose runs are sequences of small steps (one
transaction, one locked edit, one turn of the select loop), over which the theorems quantify, and as a class with
the source's fields, whose methods are proved to perform runs of that machine.

Lemmas turn off automatic induction: what their bodies say is their proof.

## Where the code departs from its intent

The model follows the code. Where the code does not do what it is for, the exact condition under which it does is
proved. For the drain and the MQTT decoder a variant labelled `Repaired` is proved to do it always.

- Draining the buffer for a stream removes indexes computed before any removal. It is right if and only if at most
  one buffered message matches (`Drain.AsWrittenCorrectIff`). With two or more it panics, or it leaves a match in the
  buffer (`Drain.AsWrittenStrands`) and hands the stream a message it did not ask for
  (`Drain.AsWrittenDeliversMatchesIff`, over whole runs `RouterDelivery.DeliveredMatchIff`). The repair removes index
  `i_j - j` at the j-th removal.
- As written, device and normal traffic disturb each other: messages of the other kind move the positions a drain
  takes, whether or not it takes one of them. A drain does to its own kind what it would do without the other one if
  and only if between every match and the position taken for it there are only messages of its kind
  (`KindDrains.DrainKeepsKindIff`), and it leaves the other kind alone if and only if it takes none of it
  (`KindDrains.OtherKindKeptIff`). Over runs the first condition, at every drain, is exactly the condition for the
  kinds to stay apart (`RouterAsWritten.KindsApartIff`).
- A one-shot whose receiver is already gone is registered with an empty cell: a buffered message then sits beside a
  waiter that wants it, and the next message given to that waiter is a panic (`RouterSafety.FailedPullArmsThePanic`).
  `RouterSafety.SettledIff` says that this and the drain are the only two ways to strand a message.
- The sensor collection subscribes anew each time the mesh loop is started again, and its former stream stays
  registered with its receiver gone. The next message for that stream is the panic `ClosedReceiver`
  (`RouterPanics.RestartedLoopPanics`). `RouterPanics.PanicsIff` gives the exact condition of each of the three panics
  after any run; while no receiver goes away the repaired router has none (`RouterPanics.NoPanicWithoutClose`).
- A message need not go to the oldest filter that matches it. It does while the slots are in the order of
  registration, an order that survives exactly the removal of one of the two youngest filters
  (`SlotSearch.OrderIsKeptIff`). `SlotSearch.OldestIsFoundIff` gives the exact condition after any removal from any
  slots, and `SlotSearch.YoungerOvertakes` a run of the code in which a younger stream gets the message.
- A `change_label` call for another label than a call still on its way, a call for a label before its sensor has
  reached the map, and a call dropped between its two writes can each leave memory and database with different labels
  until a restart. Exactly these steps can (`StoreLabels.RiskyIff`); without them labels agree
  (`StoreLabels.LabelsAgree`).
- The database takes 200 tables, one of them for the ids. From 200 ids on the program does not come up again, though
  it has taken them without complaint (`StoreSafety.RestartHeals`, `StoreSafety.FirstBatchThenRestart`).
- A sensor first seen after the database was opened has no open log: until a restart nothing of it is stored or
  backed up (`StoreSafety.NewIdsAreNotLogged`, `Backups.BackupSkipsNewSensors`).
- One reading that is not newer than the stored ones ends the update task (`StoreSafety.UpdateFailsIff`).
- A backup leaves out an entry at the largest timestamp (`Backups.BackupIsCompleteIff`).
- The MQTT decoder assumes a two-byte header, takes a packet when one byte of it may still be missing, compares the
  wrong way round while it waits, and takes an incomplete header for an error. It is right if and only if every
  remaining length fits one byte and no read ends inside a packet (`MqttFraming.AsWrittenCorrectIff`).
- SIG model identifiers are written big-endian and read little-endian (`Proto.ModelIdRoundTrip`).
- Packed key indexes are read with the nibbles of the middle octet exchanged (`Proto.KeyIndexAgreesWithStandard`).
- A device whose addition failed is not tried again until the mesh loop starts again
  (`Provisioning.AddNodeCalledIff`).
- The key type of the logs is named for little-endian but is big-endian; that is what makes the order of the keys
  the order of time (`SensorLogs.KeyOrderIsNumeric`).

## Model

| member | source | states |
|---|---|---|
| RouterIsolation.KindsDoNotInterfere | src/mesh/message_queue.rs:85-233 | Projecting any run over mixed traffic onto device or normal messages gives the run of that kind's steps alone: buffer, filters, subscribers and deliveries (repaired drain) |
| KindDrains.DrainKeepsKindIff | src/mesh/message_queue.rs:152-165 | A drain as written that does not fail takes and leaves of its kind what it would without the other kind if and only if between every match and its position there are only messages of its kind |
| KindDrains.OtherKindKeptIff | src/mesh/message_queue.rs:152-165 | It leaves the other kind's buffer as it is if and only if no position it takes holds a message of that kind |
| RouterAsWritten.ListenKeepsKindsIff | src/mesh/message_queue.rs:199-206 | Both conditions for the whole step of a new stream, on the projections of the router |
| RouterAsWritten.AsWrittenKindsDoNotInterfere | src/mesh/message_queue.rs:85-233 | Every running run as written whose drains keep to their kind projects to the run of one kind's steps |
| RouterAsWritten.KindsApartIff | src/mesh/message_queue.rs:85-233 | Over a run of distinct messages the kinds are apart at every point if and only if every drain keeps to its kind |
| RouterAsWritten.AsWrittenReceiversDoNotNotice | src/mesh/message_queue.rs:85-233 | In such a run as written every receiver gets exactly what it would without the other kind's traffic |
| RouterIsolation.ReceiversDoNotNotice | src/mesh/message_queue.rs:85-233 | With the repaired drain every receiver gets exactly what it would get without the other kind's traffic |
| KindDrains.AsWrittenMixesKindsIff | src/mesh/message_queue.rs:152-165 | A drain as written takes a message of the other kind exactly when one stands at a match's index moved by the number of matches before it |
| RouterAsWritten.AsWrittenMixesKinds | src/mesh/message_queue.rs:152-165 | A run from the empty router in which a stream for device messages gets a normal one and a device message is stranded |
| RouterIsolation.ApartIff | src/mesh/message_queue.rs:85-115 | Two filters contradict each other in some field if and only if no message matches both |
| RouterIsolation.UnrivalledStreamGetsAll | src/mesh/message_queue.rs:187-233 | With the repaired drain a stream whose filter no other subscription overlaps gets every matching message of the whole run, once each, in order, including earlier ones |
| RouterAsWritten.AsWrittenStreamGetsAll | src/mesh/message_queue.rs:187-233 | The same of the code as written, for runs in which every new stream finds at most one match |
| RouterOneshots.LoneWaiterGetsEarliest | src/mesh/message_queue.rs:133-231 | A live one-shot whose filter no other subscription overlaps gets exactly the earliest matching message of the whole run, and all later ones are buffered (repaired drain, or at most one match per drain) |
| RouterRequests.NormalStreamGetsAll | src/mesh/message_queue.rs:292-325 | A lone stream for normal messages gets exactly the arrivals of the run with kind normal and the address, index and opcode it names, once each and in order (repaired drain, or at most one match per drain) |
| RouterRequests.SensorStreamGetsReadings | src/mesh/mod.rs:209-216 | The same for the stream of the sensor collection: exactly the normal messages with its index and opcode |
| RouterRequests.DevicePullGetsEarliest | src/mesh/message_queue.rs:333-350 | A lone pull for a device gets the earliest device message of the run with the address and index it names and the opcode to be parsed, or nothing if there is none |
| Messages.MatchIff | src/mesh/message_queue.rs:85-115 | A filter matches a message exactly when it is one of the eight made of the message's own kind, address, index and opcode |
| Messages.SameFieldsMatchAlike | src/mesh/message_queue.rs:85-115 | Two messages with the same kind, address, index and opcode are matched alike |
| Messages.FullFiltersMatchIff | src/mesh/message_queue.rs:57-83 | A filter that names everything matches exactly the messages pushed with that address, index and opcode on its channel |
| Messages.EmptyFiltersMatchIff | src/mesh/message_queue.rs:281-325 | A filter that names nothing matches exactly the messages pushed on its channel |
| RouterSafety.SettledIff | src/mesh/message_queue.rs:133-231 | A step strands a message exactly when it is a failed one-shot send or an as-written drain of two or more matches |
| RouterSafety.NoStrandedMessage | src/mesh/message_queue.rs:133-231 | In every run without such steps no buffered message matches a registered filter |
| RouterSafety.ModesAgree | src/mesh/message_queue.rs:152-165 | On runs in which every new stream finds at most one match, the code as written and its repair are the same router |
| RouterSafety.FailedPullArmsThePanic | src/mesh/message_queue.rs:142-145 | A failed one-shot send leaves a match in the buffer, and the next arrival given to that waiter panics |
| RouterSafety.FailedPullMovesToEnd | src/mesh/message_queue.rs:141-144 | The message it found moves to the end of the buffer, and nothing else moves |
| RouterSafety.SlotMapsAgree | src/mesh/message_queue.rs:167-226 | Filters and subscribers have the same keys in every reachable state, so the expect on the subscriber never fires |
| RouterSafety.OneshotsHoldTheirSender | src/mesh/message_queue.rs:189-225 | Without a failed one-shot send every registered one-shot holds its sender, so the expect on the cell never fires |
| RouterSafety.PullGetsEarliest | src/mesh/message_queue.rs:133-150 | A pull gets the earliest buffered match and keeps the others in order |
| RouterSafety.DrainKeepsOrder | src/mesh/message_queue.rs:152-165 | A drain delivers and leaves messages in order of arrival, as written too |
| Router.Conservation | src/mesh/message_queue.rs:187-233 | In every run that does not panic the messages received are, as a multiset, those buffered and those delivered |
| Router.StepConserves | src/mesh/message_queue.rs:187-233 | Each step keeps what is held, plus the message that arrives |
| RouterDelivery.OrderOfArrival | src/mesh/message_queue.rs:187-233 | In runs without failed one-shot sends the buffer and every receiver's log are in order of arrival |
| RouterDelivery.OneshotAtMostOnce | src/mesh/message_queue.rs:207-227 | Over a whole run a one-shot gets at most one message, whatever is closed |
| RouterDelivery.DeliveredMatchIff | src/mesh/message_queue.rs:133-231 | Over a whole run a receiver gets only messages that match its filter exactly when the drain is repaired or its own subscription found at most one match; a one-shot always does |
| RouterDelivery.DeviceAnswer | src/mesh/message_queue.rs:281-290 | A pull for a device gets one device message, from there and of the packet type that will be parsed |
| RouterDelivery.NormalStream | src/mesh/message_queue.rs:316-325 | A stream for normal messages gets normal messages with the index, address and packet type it named (repaired drain, or at most one match found) |
| RouterDelivery.ReceiversFit | src/mesh/message_queue.rs:167-226 | Every registered subscriber is what its subscription said, no two share a channel, and a waiting one-shot has got nothing |
| RouterPanics.PanicsIff | src/mesh/message_queue.rs:152-226 | After any run the next step panics exactly when its receiver is gone, its cell was emptied by a failed one-shot send, or the drain as written runs past the end, each with its own panic |
| RouterPanics.EmptyCellIff | src/mesh/message_queue.rs:142-145 | A slot holds an empty cell exactly when a failed one-shot send of the run was registered there |
| RouterPanics.NoPanicWithoutClose | src/mesh/message_queue.rs:187-233 | While no receiver goes away the repaired router never panics, and the one as written only in a drain of two or more matches |
| RouterPanics.RestartedLoopPanics | src/mesh/mod.rs:189-216 | After the mesh loop has started again the next message for its former stream takes the router down |
| Removal.RemovalLaw | src/mesh/message_queue.rs:159-160 | Removing indexes r_0 <= r_1 <= ... one after the other removes the original positions r_j + j, and goes out of bounds exactly when one of them reaches the length |
| Drain.MatchIndexesIncrease | src/mesh/message_queue.rs:117-130 | The matching indexes are strictly increasing |
| Drain.IterFilter | src/mesh/message_queue.rs:117-130 | The iterator yields exactly the matching indexes, in order |
| Drain.DrainAsWrittenLaw | src/mesh/message_queue.rs:152-165 | The loop as written removes the positions i_j + j, whatever is there, and panics exactly when one of them reaches the length |
| Drain.DrainRepairedLaw | src/mesh/message_queue.rs:152-165 | The repaired loop never fails, delivers exactly the matches and leaves exactly the others, in order |
| Drain.AsWrittenCorrectIff | src/mesh/message_queue.rs:152-165 | The loop as written does what the repaired one does if and only if at most one buffered message matches |
| Drain.AsWrittenStrands | src/mesh/message_queue.rs:152-165 | With two or more matches the loop as written panics or leaves a match behind |
| Drain.AsWrittenDeliversMatchesIff | src/mesh/message_queue.rs:152-165 | A loop as written that does not fail delivers only matches if and only if there is at most one |
| Drain.SelectProperties | src/mesh/message_queue.rs:117-130 | What a drain selects and rejects is told apart by the filter and is together the buffer |
| Drain.PullFirstAt | src/mesh/message_queue.rs:138-141 | The first matching index gives the message and the buffer without it |
| SlotMap.DenseSlotMap.InsertLaw | src/mesh/message_queue.rs:168-168 | Inserting gives a fresh key and adds exactly one entry |
| SlotMap.DenseSlotMap.SwapRemoveLaw | src/mesh/message_queue.rs:225-226 | Removing by moving the last slot into the hole removes exactly that key |
| SlotSearch.InOrderGoesToOldest | src/mesh/message_queue.rs:172-177 | While the slots are in the order of registration the search finds the oldest match |
| SlotSearch.OldestIsFoundIff | src/mesh/message_queue.rs:172-177 | For any slots, after any removal, a message goes to the oldest match left exactly when no other match left is older than the one now found |
| SlotSearch.FirstRemovalIff | src/mesh/message_queue.rs:172-177 | From slots in the order of registration that is exactly when the youngest filter, moved into the hole, does not overtake an older match |
| SlotSearch.OrderIsKeptIff | src/mesh/message_queue.rs:225-226 | The order of registration survives exactly the removal of one of the two youngest filters |
| SlotSearch.YoungerOvertakes | src/mesh/message_queue.rs:208-228 | A run of the code in which a message that two streams want goes to the younger one |
| MessageQueues.MessageQueue.TryPullOne | src/mesh/message_queue.rs:133-150 | First match sent and removed; on a closed receiver the message goes to the end of the buffer and the cell is empty |
| MessageQueues.MessageQueue.RemoveAndSend | src/mesh/message_queue.rs:160-161 | One turn of the drain loop |
| MessageQueues.MessageQueue.DrainLoop | src/mesh/message_queue.rs:159-164 | The drain loop over given indexes: what is sent, what stays, and which panic if any |
| MessageQueues.MessageQueue.TryPullMany | src/mesh/message_queue.rs:152-165 | The drain as written: state, deliveries and panics |
| MessageQueues.MessageQueue.TryPullManyRepaired | src/mesh/message_queue.rs:152-165 | The repaired drain sends exactly the matches and keeps exactly the others |
| MessageQueues.MessageQueue.AddSubscriber | src/mesh/message_queue.rs:167-170 | Registers filter and subscriber under one fresh key |
| MessageQueues.MessageQueue.MatchFilter | src/mesh/message_queue.rs:172-177 | Finds the first slot whose filter matches, and one exactly when there is one |
| MessageQueues.MessageQueue.HandleSubscription | src/mesh/message_queue.rs:189-207 | The subscription branch is one enabled step of the state machine, panics included |
| MessageQueues.MessageQueue.HandleMessage | src/mesh/message_queue.rs:208-231 | The message branch is one enabled step of the state machine, panics included |
| MessageQueues.MessageQueue.Handle | src/mesh/message_queue.rs:188-232 | One turn of the loop is one step of the state machine, with the key and the slots the code computes |
| MessageQueues.MessageQueue.Serve | src/mesh/message_queue.rs:181-234 | The select loop over any events is a run of the state machine from the empty router, the one whose keys the slot maps give |
| StoreSafety.SensorMapFollowsIdTable | src/tasks.rs:51-81 | In every interleaving the map's keys are ids of the table, and all of them unless the update task has failed or is between its id commit and its map edit |
| StoreSafety.WritesDoNotClash | src/tasks.rs:43-57 | In every interleaving update never overwrites a label and change_label never creates an id |
| StoreSafety.StoredLabelIsLastCommit | src/rpc.rs:110-128 | The stored label is that of the last committed change, or the initial one |
| StoreLabels.LabelsAgree | src/rpc.rs:104-144 | In every interleaving without a risky step memory and database have the same label for each id no call is working on |
| StoreLabels.RiskyIff | src/rpc.rs:104-144 | In every state such interleavings reach, a step makes a lasting difference of labels possible if and only if it is risky |
| StoreLabels.OverlapCanDiverge | src/rpc.rs:117-141 | Wherever two calls for one id overlap, some schedule leaves the older label in memory for good |
| StoreLabels.EarlyCallCanDiverge | src/rpc.rs:132-141 | A call that starts between the id commit and the map edit of the registering update leaves memory without the label, or in no map at all when the update fails |
| StoreLabels.DroppedCallDiverges | src/rpc.rs:127-141 | A call dropped between its commit and its map edit leaves the old label in memory |
| StoreSafety.RestartHeals | src/db.rs:90-110 | From any reachable database a restart succeeds if and only if there are at most 199 ids; it then gives the map exactly the stored ids and labels, every id an open log, and loses no reading |
| StoreSafety.FirstBatchThenRestart | src/db.rs:90-110 | Any first batch is taken, and the program comes up again after it if and only if it has at most 199 sensors |
| StoreSafety.LogHistory | src/db.rs:64-80 | The log of a known id after any run is the initial log followed by its readings from the committed batches, in order, with increasing times |
| StoreSafety.EarlierLogIsPrefix | src/db.rs:64-80 | Every earlier log is a prefix of every later one |
| StoreSafety.NewIdsAreNotLogged | src/db.rs:65-75 | An id first seen after open has no open log for the rest of the session, and nothing stored for it changes |
| StoreSafety.UpdateFailsIff | src/tasks.rs:59-67 | The log transaction fails exactly when a reading for an open log is not newer than everything stored there |
| StoreSafety.LogsMoveOnlyByCommit | src/db.rs:64-80 | Only a committed log transaction changes a log, and only an open one |
| Contexts.OverviewIsBroadcastIff | src/rpc.rs:52-87 | Asking for the overview and listening to broadcasts agree exactly when every label in memory is the stored one |
| Contexts.QuietOverviewIsBroadcast | src/main.rs:177-202 | After any careful run with no call on its way they agree |
| Contexts.LastBroadcastIsCurrent | src/main.rs:167-174 | In every interleaving the last broadcast shows the map as it is |
| Contexts.QuietBroadcastIsOverview | src/main.rs:167-174 | After any careful run with no call on its way the last broadcast is what asking for the overview returns |
| Contexts.OpenLogs | src/db.rs:90-110 | Opening succeeds exactly with at most 199 known ids, gives each of them a log and keeps what is stored |
| Contexts.FillSensors | src/main.rs:138-153 | The initial map has exactly the stored ids, with their labels and no readings |
| Contexts.Context.Create | src/main.rs:134-161 | Creating a context succeeds exactly when the database opens, and is then the restart state of the state machine |
| Contexts.Context.FindNew | src/tasks.rs:41-50 | The ids of the batch that the table does not have |
| Contexts.Context.RegisterNew | src/tasks.rs:51-57 | Adds exactly those ids, without labels |
| Contexts.LogTransaction | src/db.rs:65-75 | Every open log of a sensor with a reading gets one entry with its time, temperature, humidity and pressure, other logs stay; or it fails as a whole |
| Contexts.Context.LogReadings | src/tasks.rs:59-67 | Commits all readings of a batch, field by field, or none |
| Contexts.EditStates | src/tasks.rs:69-80 | Sets the states of the batch, adds new sensors without a label, and leaves everything else |
| Contexts.Context.ApplyUpdate | src/tasks.rs:69-80 | The same on the map of the context, which is then broadcast |
| Contexts.Context.CheckAndRegister | src/tasks.rs:41-57 | The first two transactions are the steps Receive and RegisterIds of this batch |
| Contexts.Context.UpdateOnce | src/tasks.rs:41-81 | One batch is exactly its four steps, with one broadcast, or the first three when its readings cannot be logged |
| Contexts.Context.Update | src/tasks.rs:36-84 | The update task is exactly the steps of the given batches, one after the other, up to the first whose readings cannot be logged; each batch taken is broadcast |
| Contexts.Context.ChangeLabel | src/rpc.rs:104-144 | A call is the run check, commit, edit; it changes one label in both places, or nothing for an unknown id |
| Contexts.Context.EditLabel | src/rpc.rs:132-141 | The map edit changes one label if the sensor is there, and broadcasts |
| Contexts.Context.CreateOverviewResponse | src/main.rs:177-202 | One field per sensor in order of id, with its label in memory, and with the temperature, pressure and humidity of its reading exactly if it is connected |
| Contexts.Context.Overview | src/rpc.rs:58-86 | One field per sensor in order of id, with its label in the database, and with the temperature, pressure and humidity of its reading exactly if it is connected |
| SensorLogs.AppendLaw | src/db.rs:65-75 | Append succeeds exactly when the key exceeds every stored key, and keeps the log increasing |
| SensorLogs.KeyOrderIsNumeric | src/db.rs:18-18 | Comparing four-byte big-endian keys byte by byte is comparing timestamps |
| SensorLogs.KeyRangeIsNumeric | src/db.rs:177-181 | A range lookup by keys is the numeric filter start <= t < end |
| SensorLogs.AdjacentRanges | src/db.rs:177-187 | Adjacent ranges concatenate to the joined range |
| SensorLogs.RowsOfColumns | src/db.rs:180-187 | The four columns are aligned and their rows are the entries |
| SensorLogs.ReadRange | src/db.rs:163-190 | The lookup loop returns the first limit entries of the range, as aligned columns |
| Backups.GetLog | src/db.rs:163-190 | Nothing for an id without an open log, else the limited range |
| Backups.GetSensorData | src/rpc.rs:32-50 | Invalid range, not found, or rows with the fields of exactly the stored entries of the range, once each and in order |
| Backups.PagesLaw | src/rpc.rs:155-187 | Pages put together are the log; ceil(n / 8192) of them, none empty, all but the last full |
| Backups.Turn | src/rpc.rs:159-185 | One turn of the paging loop sends the next page, the next start exists and nothing is skipped or repeated |
| Backups.BackupSensor | src/rpc.rs:157-187 | The paging loop terminates with exactly the sensor's chunks, or those before the receiver went away |
| Backups.Backup | src/rpc.rs:146-193 | The whole backup sends exactly the chunks of every id, in whatever order the id table is read, or those before the receiver went away |
| Backups.BackupIsTheScan | src/rpc.rs:155-187 | One sensor's chunks put together are every entry below the largest timestamp, once each, in order, in ceil(n / 8192) chunks |
| Backups.ResponsesAreTheScan | src/rpc.rs:155-187 | The rows of the responses sent for a sensor are that scan, field by field |
| Backups.BackupIsCompleteIff | src/rpc.rs:165-165 | A backup is complete exactly when nothing is stored at the largest timestamp |
| Backups.BackupSkipsNewSensors | src/db.rs:172-175 | A sensor first seen after open is in no backup |
| Batches.Collect | src/mesh/mod.rs:223-257 | A batch has exactly the connected ids as keys, each connected with what the octets of its last valid message say, or unconnected if it sent none; the round ends at the first moment all are heard, and panics exactly at an unknown address |
| Batches.ConvertIff | src/mesh/mod.rs:695-707 | A message converts exactly to what its eight octets say: temperature in two's complement and humidity within their ranges, pressure, and the time of arrival |
| Batches.StateIsHeard | src/mesh/mod.rs:235-257 | The state of a sensor after a round, by the octets of its messages |
| Batches.CollectOne | src/mesh/mod.rs:235-249 | Heard and not yet heard stay disjoint and are together the connected ids |
| Batches.AddUnheard | src/mesh/mod.rs:253-257 | The ids not heard are added as unconnected and nothing else changes |
| Batches.UpdateTakesBatch | src/tasks.rs:41-81 | However the steps of the update and of label calls interleave, once a batch is taken every connected sensor shows its state of the round, and every open log has got exactly those readings |
| Batches.TakenReadingIsStored | src/sensor.rs:36-44 | Once a batch is taken an open log ends with an entry that has the fields of the sensor's reading, and is otherwise as before |
| Batches.TakenReadingIsAnswered | src/db.rs:177-187 | Any answer about a range that reading lies in ends with a row of its fields |
| Batches.BatchIsTakenIff | src/tasks.rs:59-67 | An undisturbed update takes a batch exactly when every reading for an open log can be appended |
| Provisioning.LoopState.Handle | src/mesh/mod.rs:285-348 | Each event is one step on the discovering set and the connected nodes, and says whether add_node is called |
| Provisioning.DiscoveringIsWaiting | src/mesh/mod.rs:189-295 | In every run the discovering set is exactly the devices discovered and, since then, neither added nor forgotten by a new start of the loop |
| Provisioning.ConnectedIsLastAdded | src/mesh/mod.rs:341-342 | In every run the node connected at an address is exactly the last one added there since the loop started |
| Provisioning.ConnectedWasAdded | src/mesh/mod.rs:341-342 | An address is connected exactly when some node was added there since then |
| Provisioning.AddNodeCalledIff | src/mesh/mod.rs:286-292 | add_node is called for a discovery exactly when no earlier one still waits |
| Provisioning.Provisioner.RequestProvData | src/mesh/provisioner.rs:26-56 | Addresses are handed out from 5 on, in order, each once, until the counter overflows; more than one at a time is refused |
| MqttFraming.RepairedDecodesAnyCutting | tokio-mqtt/src/codec.rs:43-78 | For any packets and any way of cutting their encoding into reads, the repaired decoder emits exactly them and leaves nothing |
| MqttFraming.CuttingDoesNotMatter | tokio-mqtt/src/codec.rs:43-78 | How any byte stream, malformed ones included, is cut into reads changes neither the packets nor how the stream ends (repaired) |
| MqttFraming.AsWrittenCorrectIff | tokio-mqtt/src/codec.rs:24-78 | The decoder as written is right if and only if every remaining length is at most 127 and no read ends inside a packet |
| MqttFraming.DrainSplits | tokio-mqtt/src/codec.rs:43-78 | Draining a longer buffer is draining its first part and then the rest |
| MqttFraming.DecodeHead | tokio-mqtt/src/codec.rs:45-67 | As written a first piece gives a packet exactly when it is small and all there; otherwise the decoder does not recover |
| MqttFraming.NeverResumes | tokio-mqtt/src/codec.rs:69-76 | As written, once the decoder waits for bytes it emits nothing any more |
| MqttFraming.SplitReadEnds | tokio-mqtt/src/codec.rs:43-78 | Where a read that ends inside a packet leaves the decoder as written: an error, a wait for one byte too few, or a panic, by how much of the packet is there |
| MqttFraming.PieceEnds | tokio-mqtt/src/codec.rs:43-67 | The exact result of one call as written on any first piece of a packet |
| MqttFraming.WaitingEnds | tokio-mqtt/src/codec.rs:69-76 | Waiting ends with a panic exactly if the next read brings the buffer to no more than the size waited for, and never otherwise |
| MqttFraming.OpenHeaderIsError | tokio-mqtt/src/codec.rs:47-47 | A header that has not ended yet is an error as written |
| MqttFraming.RepairedOutcomes | tokio-mqtt/src/codec.rs:43-78 | The repaired decoder errs exactly on four length octets that all go on, gives a packet exactly when all of it is there, and never panics |
| MqttFraming.ParseEncoded | tokio-mqtt/src/codec.rs:29-34 | Decoding an encoded packet gives it back |
| Mqtt.RemainingLengthRoundTrip | tokio-mqtt/src/codec.rs:19-22 | Reading the header of an encoded packet gives its length, in at most four bytes, whatever follows |
| Mqtt.LengthRoundTrip | tokio-mqtt/src/codec.rs:19-22 | Reading an encoded length gives it back, and every proper prefix is incomplete |
| Mqtt.LengthMeans | tokio-mqtt/src/codec.rs:19-22 | Which octets are a length, which are too few and which are malformed, and its value by seven bits each, as section 2.2.3 of MQTT 3.1.1 has it |
| Mqtt.EncodedLayout | tokio-mqtt/src/codec.rs:89-100 | First octet, length, body |
| Mqtt.WholePacketParses | tokio-mqtt/src/codec.rs:29-34 | The bytes a complete header announces are one packet |
| Mqtt.BytesMut.SplitTo | tokio-mqtt/src/codec.rs:29-29 | Splits off the head, or panics beyond the end |
| Mqtt.MqttDecoder.ConsumeFullPacket | tokio-mqtt/src/codec.rs:24-35 | Packet, error or panic, with the new state and buffer |
| Mqtt.MqttDecoder.Decode | tokio-mqtt/src/codec.rs:43-78 | The decoder as written, branch by branch |
| Mqtt.MqttDecoder.DecodeFixed | tokio-mqtt/src/codec.rs:43-78 | The repaired decoder |
| Mqtt.EncodeTo | tokio-mqtt/src/codec.rs:89-100 | Appends the packet's encoding to the output buffer |
| Proto.ParseEncoded | src/mesh/proto/parse.rs:64-78 | Reading back an opcode and payload gives the same ones if and only if the opcode is well-formed |
| Proto.EncodeParsed | src/mesh/proto/mod.rs:61-69 | Writing back what was read reproduces the buffer, and only well-formed opcodes are read |
| Proto.OpcodesArePrefixFree | src/mesh/proto/parse.rs:64-78 | No written opcode is a prefix of another |
| Proto.NewVendorIsWellFormed | src/mesh/proto/mod.rs:18-23 | new_vendor always builds an opcode that survives the wire |
| Proto.NewVendorTellsApart | src/mesh/proto/mod.rs:18-23 | Six-bit operation codes and company identifiers are told apart, and the code is 0xc0 and more |
| Proto.OpcodeOctets | src/mesh/proto/messages.rs:19-26 | The octets of an opcode as numbers: SIG opcodes high octet first, companies low octet first |
| Proto.Encode | src/mesh/proto/messages.rs:17-30 | Opcode and payload, refused exactly from 380 octets on, and parsed back for well-formed opcodes |
| Proto.UnpackThenPack | src/mesh/proto/parse.rs:55-62 | Unpacked indexes have 12 bits and determine the three octets |
| Proto.PackThenUnpack | src/mesh/proto/parse.rs:55-62 | Every pair of 12-bit numbers is unpacked from some octets |
| Proto.KeyIndexValues | src/mesh/proto/parse.rs:58-59 | The two indexes read, as numbers of the three octets |
| Proto.KeyIndexAgreesWithStandard | src/mesh/proto/parse.rs:58-59 | The code reads what section 4.3.1.1 writes exactly when the nibbles of the middle octet are equal |
| Proto.PutModelId | src/mesh/proto/put.rs:3-16 | Appends the identifier to the buffer |
| Proto.ModelIdRoundTrip | src/mesh/proto/parse.rs:24-43 | Writing then reading is the identity on vendor ids, a byte swap on SIG ids, and right exactly when the two octets are equal |
| Proto.ModelIdOctets | src/mesh/proto/put.rs:3-16 | The octets written for an identifier, as numbers |
| Proto.ReadModelIdOctets | src/mesh/proto/parse.rs:24-43 | What is read from two or four octets, as numbers; nothing from any other count |
| Proto.ParseSensorBytes | src/mesh/proto/vendor.rs:30-44 | Every reading survives the wire |
| Proto.SensorBytesParsed | src/mesh/proto/vendor.rs:30-44 | The accepted payloads are exactly the eight-octet ones, and each is what its reading writes |
| Proto.SensorNumbers | src/mesh/proto/vendor.rs:30-44 | Temperature, humidity and pressure of a payload as numbers of its octets |
| SigMessages.PutBind | src/mesh/proto/sig.rs:23-27 | Appends the bind request to the buffer |
| SigMessages.EncodeBind | src/mesh/proto/messages.rs:17-30 | An encoded bind request is 0x80, 0x3d and the numbers of its fields, octet by octet, always fits, and is parsed as opcode and payload |
| SigMessages.EchoedBindStatus | src/mesh/proto/sig.rs:44-60 | An answer that echoes a bind request is understood, and names the same model exactly for vendor models and SIG models with equal octets |
| SigMessages.ModelAppStatusAccepts | src/mesh/proto/sig.rs:44-60 | Seven or nine octets are accepted, and two answers read the same exactly when they differ in a reserved status at most |
| SigMessages.ModelAppFields | src/mesh/proto/sig.rs:44-60 | Every octet behind the status comes back from the fields |
| SigMessages.AppKeyStatusAccepts | src/mesh/proto/sig.rs:76-87 | Exactly four octets are accepted; the status is a success exactly for octet zero, and the others come back from the two indexes |
| SigMessages.StatusesDiffer | src/mesh/proto/mod.rs:101-133 | Only octet zero is a success, octets 0x00 to 0x11 give different statuses and all others the reserved one |

## Left out

- The identity of a message is modelled by an auxiliary field `arrival`, its position in the order of arrival. No step
  of the router reads it.
- A receiver may go away between any two steps of the router, but not in the middle of draining for it.
- `DenseSlotMap` is a library that is not in the repository. It is modelled as moving the last slot into the hole; the
  state machine allows any free key and any matching filter, so nothing proved about runs depends on that order.
- A send to a receiver that is gone ends at a `todo!` in three places; the model stops there with the panic
  `ClosedReceiver`, and what a retry would do is not modelled.
- MessageQueues.MessageQueue.Serve: performs runs of the code as written; the repaired drain is proved as a method on
  its own.
- Channel capacity, backpressure, timers and scheduling: a send appends to the receiver's log, a timeout is the end of
  the messages a round gets.
- The database: sorted maps, snapshot reads, atomic writes. Other database errors end the update task or the call, at
  any point between steps. `delete_addr` has no caller, so the id table only grows.
- Contexts.Context.Update: the class runs one task at a time; interleavings are those of the state machine.
- Backups.Backup: ids that cannot be read and a failing read transaction are not modelled.
- Backups.GetSensorData: a request without an id, which panics, is not modelled.
- Identifiers are numbers, labels are strings. The map in memory is read in the order of the numbers. The keys of the
  id table have the byte order of the machine, so a backup is modelled for every order of that table.
- The database limit is modelled where the program can meet it, at its start; that the tables of known ids are the
  only ones is taken from the code.
- The ranges of the temperature and humidity types come from a library that is not in the repository; they are
  parameters of `Batches.Convert`.
- MQTT packet bodies are opaque bytes of the stated length: a packet type that is not valid, a body that does not
  parse, and what happens at the end of the stream are not modelled. That a packet with part of its header or body
  missing is an error is assumed of the library that parses it.
- Provisioning.Provisioner.RequestProvData: an address beyond the unicast range is handed out as the code does; whether
  the mesh accepts it is not judged. `extract_uuid`, which takes the first 16 octets or reports an error, would only
  add an easy member.
- `src/supervisor.rs` is not part of this model. Neither are D-Bus, the sends and scans of the mesh loop, the gRPC
  transport and its token, TLS, configuration and options, `mqtt_publish`, the dummy sensors, and everything printed.
