# NetworkTables 3: a verified model

NetworkTables is a replicated key/value store: one server, many clients, entries with 16-bit wrapping sequence
numbers, ids that only the server hands out, and a write queue per connection that rewrites what it has not sent yet.
This project models the six parts of the Python implementation that have to fit together, and proves what they
promise.

* **Storage.** `StorageSpec` says what every operation of `Storage` does, as a function from a table (entries by name,
  names by id, names by handle, dirty flag) to the new table and the messages it sends. The class `Storage.Storage`
  has the source's objects, fields and loops and updates them in place; each of its methods is proved equal to its
  function. `Effects` tells the operations by what a program reads; `Index`, `InitialIndex`, `DirtyFlag`,
  `FlagRaised`, `LastWriter` and `Serial` prove what the functions keep, and `Loading` what a file load does to
  entries and clients.
* **Replication.** `Receiver` is the meaning of a message list for a peer that is addressed by id. `Replication` and
  `Network` prove that a server announces exactly what it does and that a client which only follows ends with the
  server's table, in every interleaving of operations and reads. `Relaying` is what a server does with what its
  clients say, and `Telling` what a client says and hears. `PendingId` is the opposite direction: a client that writes
  an entry, even before the server's id for it has come back; `QueuedWriter` is the same through the outgoing queues
  of both sides. `Rivals` is about two writers of one entry at once.
* **The outgoing queue.** `Coalescer` is the queue, `Connection` its in-place form, `Routing` the way from the storage
  to the queues, `Coalescing` proves that the surviving messages mean what all messages queued would have meant, and
  `CoalescingLimits` exactly when they do not. `PerEntry` proves that the queue treats every entry by itself,
  `Survivors` which writes to an entry it leaves, and `Arrivals` which of these come after the assignment of the id.
  `CoalescingFits`, `EndToEnd` and `OwnWrites` put server, queue and client together.
* **Joining.** A client connects while other threads write. `Handout` is the way of messages out of a locked region,
  through an attribute that all threads share; `Tracking` follows one entry through the server's operations and
  through what the client reads, in any order; `Joining` puts these together and says exactly when the client ends
  with the server's value, `Leaving` exactly when it has the entry at all if that may be deleted, and `Overtaken` has
  the runs in which it does not.
* **The handshake.** `HandshakeSpec` and `Handshake` prove that two arbitrary tables converge to a merge; `Dialogue`
  is the conversation of the two sides, with its loops and the second attempt with the older revision, `Refusing`
  exactly which conversations are accepted, and `OldServer` what becomes of a client's entries at a server of protocol
  2.0.
* **Bytes and text.** `Leb128`, `WireSpec`, `WireLayout`, `WireRoundTrip`, `WireRefusal`, `WireCodec` and `OldPeers`
  are the binary encodings of both protocol revisions; `PersistentText`, `PersistentFile`, `PersistentFormat` and
  `PersistentScan` the text of the persistent file.

Reading order: `Protocol`, `Serial`, `StorageSpec`, `Index`, `Receiver`, `Replication`, `Network`, then any other
module.

## Where the code does not do what one would hope

These are consequences of the code, each with its exact condition.

* A region of `Storage` stores its list of messages in an attribute that all threads share, gives up the lock, and
  only then looks the attribute up to queue the messages. If another thread enters in between, its list is queued
  twice and the first one never (`Handout.SharedListLosesMessage`). A list is gone through by some loop if and only if
  a loop starts while it is the last one made (`Handout.GoneThroughIff`). If every region sends something, nothing is
  lost or doubled if and only if no thread enters between another one's release and the start of its loop
  (`Handout.NothingLostOrDoubledIff`); once the loop has started, the list is held by it and later entries do no harm.
* The queue of a connection keeps, of several pending writes to an entry, the one that is queued last, whatever its
  number. A thread that is overtaken on its way to the queue therefore leaves a client with an old value for good,
  even if the entry was in the client's snapshot (`Overtaken.OvertakenWriteIsLost`; `Joining.SnapshotEntrySafeIff` is
  the exact condition, `Joining.OrderedQueueIsSafe` what is enough). An entry that was not in the snapshot is also
  lost if its first update arrives before its assignment (`Overtaken.OvertakenAssignmentIsLost`,
  `Joining.NewEntrySafeIff`), and a deletion if the assignment is queued after it
  (`Overtaken.OvertakenDeletionIsLost`, `Leaving.DeletionReachesClientIff`).
* A clear discards pending messages although persistent entries survive it
  (`CoalescingLimits.ClearLosesPersistentWrite`, `CoalescingLimits.FaithfulAtClearIff`,
  `CoalescingLimits.FaithfulIffUntouched`).
* Merging pending writes loses the entry if together they pass half of the number space
  (`CoalescingLimits.LongJumpIsLost`, `CoalescingLimits.WritesMergeIff`, `CoalescingLimits.ChainIsFaithfulIff`).
* A server and a client that set an entry at the same time ignore each other's updates and stay apart if they set it
  equally often (`Rivals.SimultaneousWritesStay`, `Rivals.RivalsAgreeIff`).
* The answer to a request for an id replaces the client's newer value after 32768 or more changes
  (`PendingId.ReplyKeepsValueIff`).
* The 65536th id would be 0xFFFF, which means "none" (`Index.BudgetIsTight`).
* After the handshake flags may differ on entries for which the client kept its value
  (`Handshake.HandshakeStartsReplication`), and an entry that was deleted offline comes back
  (`Handshake.OfflineDeleteIsUndone`).
* The dirty flag can be down, with no save under way, while the server's own file is out of date. Exactly these events
  bring that about (`DirtyFlag.SpoilsIff`): a save on demand to another file, which lowers the flag too; a save on
  demand that fails, which does not raise it again (`DirtyFlag.OnDemandLoses` for both); a save that ends after a
  later one has, for nothing keeps a save on demand and a periodic one apart (`DirtyFlag.OverlappingSavesLose`); and a
  file load of persistent entries, which never raises the flag (`DirtyFlag.LoadIsNotSaved`). `DirtyFlag.RestoredIff`
  says which events repair it, `DirtyFlag.CarefulUseIsSound` what use is safe.
* A file load advances the number of every entry that it lists, also where nothing changes and nothing is sent. The
  next writes of clients then carry numbers that the server takes for old ones (`Loading.LoadHidesWritesIff`), and
  after 32768 items that change nothing the clients take the server's next one for old (`Loading.LongLoadIsLost`,
  `Loading.LoadIsHeardIff`).
* The list of one empty string is printed as nothing (`PersistentText.StringArrayRoundTrip`), and an entry with an
  empty name cannot be loaded (`PersistentFile.ItemRoundTrip`).
* A relayed update that changes the type is misread by a client of protocol 2.0 (`OldPeers.OldClientReadsRelayIff`).
* A batch of initial assignments breaks the id index of a client if it takes the id of an entry away again
  (`InitialIndex.SameIdBreaksIndex`, `InitialIndex.InitialIsIndexedIff`).

## Model

| member | source | states |
|---|---|---|
| Serial.MatchesRfc1982 | _pynetworktables/_impl/storage.py:116-138 | on all 16-bit pairs the two comparisons are those of section 3.2 of RFC 1982 with SERIAL_BITS = 16 |
| Serial.NewerIsAhead | _pynetworktables/_impl/storage.py:116-138 | newer means 1 to 32767 increments ahead, never both ways; exactly 32768 apart is newer in neither direction |
| Serial.IncrementsAreNewer | _pynetworktables/_impl/storage.py:112-126 | n increments give a newer number if and only if n is between 1 and 32767, across the wrap-around |
| Serial.NewerInWindow | _pynetworktables/_impl/storage.py:116-138 | inside half a window "newer" is the order of the offsets, hence transitive |
| Serial.NewerIsNotTransitive | _pynetworktables/_impl/storage.py:116-126 | outside it is not: three numbers in a circle |
| LastWriter.LastWriterWins | _pynetworktables/_impl/storage.py:374-391 | updates in any order with any repetition leave the write with the largest serial offset, or the entry as it was if none is ahead |
| LastWriter.OrderDoesNotMatter | _pynetworktables/_impl/storage.py:374-391 | two deliveries of the same set of updates end in the same record |
| Index.StepKeepsIndexed | _pynetworktables/_impl/storage.py:253-443 | every operation keeps names and handles in bijection, every assigned id leading to its entry, ids and local writes only with a value; on a server also value exactly with id and slot i holding the entry with id i |
| Index.RunKeepsIndexed | _pynetworktables/_impl/storage.py:834-920 | the same in every reachable state, within the budget of ids, for arbitrary incoming messages |
| Index.RunExtends | _pynetworktables/_impl/storage.py:912-920 | in every run handles keep their names and neither entries nor slots are ever dropped |
| Index.LoadKeepsIndexed | _pynetworktables/_impl/storage.py:1248-1319 | file loads of any list of entries keep the indexes |
| Index.BudgetIsTight | _pynetworktables/_impl/storage.py:685-688 | a new value keeps the server's invariant if and only if fewer than 65535 ids are used; otherwise the entry has a value and no id |
| Effects.OperationDoes | _pynetworktables/_impl/storage.py:613-910 | what a program reads by name after each of its operations, on a server or a client: a set changes one value unless that has another type, a default only what is not there, a deletion takes one value, a clear all that are not persistent; nothing else changes |
| Effects.SetIsRefusedIff | _pynetworktables/_impl/storage.py:647-659 | a set stores its value if and only if the entry has none or one of this type; otherwise no record changes and nothing is sent |
| Effects.OperationFlags | _pynetworktables/_impl/storage.py:752-872 | only a change of flags changes the flags of an entry, and only if it has a value; a deletion clears them, a clear does not |
| Effects.OperationCounts | _pynetworktables/_impl/storage.py:694-729 | the number of an entry advances by one when its value becomes another one, and at no other time, not when it is deleted either |
| Effects.OperationMarks | _pynetworktables/_impl/storage.py:694-707 | an entry is marked as written by every write that is not refused, even of the same value, until its value goes |
| Effects.NothingToTell | _pynetworktables/_impl/storage.py:613-910 | an operation that changes no value and no flags sends nothing |
| Effects.TypeStays | _pynetworktables/_impl/storage.py:647-659 | in every run an entry keeps its type until a forced set of it, its deletion, a clear or a message |
| Relaying.MessageServed | _pynetworktables/_impl/storage.py:253-443 | what a server does with any message of a client but a request, in both revisions: its entries change as the message says, and everyone but the sender is told, if and only if the id is known, the name is right and the number is not old; otherwise nothing happens |
| Relaying.ChangesAreRelayed | _pynetworktables/_impl/storage.py:364-434 | so a message that changes anything is relayed to everyone but its sender |
| Relaying.RequestHeard | _pynetworktables/_impl/storage.py:260-275 | a request numbers an entry that is not there and everyone is told, its sender too; a request for an entry that is there is ignored |
| Relaying.OneClientTellsAnother | _pynetworktables/_impl/storage.py:421-434 | a message of one client, a deletion for instance, brings the server and every other client that was in step to the same entries, those that the message makes of the old ones |
| Telling.ClientTells | _pynetworktables/_impl/storage.py:677-910 | every operation of a client's program sends at most one message, and that message makes the server's view of the numbered entries follow |
| Telling.RequestIff | _pynetworktables/_impl/storage.py:709-729 | a client asks for an id exactly when an entry that has none gets its first value or one of another type, with the value, flags and number that it has then |
| Telling.MessageFollowed | _pynetworktables/_impl/storage.py:276-443 | a client does with any message, in both revisions, what it says to a follower, and answers nothing, except for the first assignment of an entry that it has already |
| Telling.SlotsReach | _pynetworktables/_impl/storage.py:285-290 | the slots of a client reach as far as the highest id that it has heard an assignment of |
| InitialIndex.InitialIsIndexedIff | _pynetworktables/_impl/storage.py:506-605 | whatever a client held before and whatever the batch of initial assignments: afterwards names, handles, ids and slots agree if and only if no assignment that is the last of its name is followed by one that gives its id to another name |
| InitialIndex.InitialKeepsIndexed | _pynetworktables/_impl/storage.py:506-605 | so they agree after every batch with distinct ids |
| InitialIndex.SameIdBreaksIndex | _pynetworktables/_impl/storage.py:578-580 | and not after one id for two names, for any client |
| Storage.Entry.constructor | _pynetworktables/_impl/storage.py:61-100 | a new entry has no value, no flags, no id and sequence number 0 |
| Storage.Storage.constructor | _pynetworktables/_impl/storage.py:158-196 | the empty storage is valid |
| Storage.Storage.GetOrNew | _pynetworktables/_impl/storage.py:912-920 | an existing entry is returned as it is; a new one gets the next handle and nothing else changes |
| Storage.Storage.SetEntryValueImpl | _pynetworktables/_impl/storage.py:677-729 | in place: value and the user's cached value together, the id and its slot on a server, dirty flag, local mark, sequence number and message; the whole new state is that of the specification |
| Storage.Storage.GenerateMessage | _pynetworktables/_impl/storage.py:709-729 | which message, and that the number advances exactly with a local change |
| Storage.Storage.SetEntryFlagsImpl | _pynetworktables/_impl/storage.py:770-797 | flags with their cached persistent bit, dirty flag exactly when that bit changes, message only with an assigned id |
| Storage.Storage.DeleteEntryImpl | _pynetworktables/_impl/storage.py:834-872 | slot, value, cached value, id, mark and flags are cleared, the sequence number stays, message only with an assigned id |
| Storage.Storage.DeleteAllEntriesImpl | _pynetworktables/_impl/storage.py:875-902 | the loop empties exactly the live entries that are not persistent and their slots, and reports if there were any |
| Storage.Storage.AssignKnownImpl | _pynetworktables/_impl/storage.py:318-372 | the part of the assignment handler that server and client share, with its refusals |
| Storage.Storage.AssignRequestImpl | _pynetworktables/_impl/storage.py:260-275 | the first request for an id is served, later ones are ignored |
| Storage.Storage.AssignNewImpl | _pynetworktables/_impl/storage.py:291-316 | an assignment to an empty slot of a client: a new entry, or the answer to a request |
| Storage.Storage.ProcessIncomingEntryAssign | _pynetworktables/_impl/storage.py:253-372 | the whole handler, new state and messages |
| Storage.Storage.ProcessIncomingEntryUpdate | _pynetworktables/_impl/storage.py:374-405 | applied and relayed to all others if and only if it is newer |
| Storage.Storage.ProcessIncomingFlagsUpdate | _pynetworktables/_impl/storage.py:407-419 | new state; relayed even if nothing changes |
| Storage.Storage.ProcessIncomingEntryDelete | _pynetworktables/_impl/storage.py:421-434 | new state and relay |
| Storage.Storage.ProcessMessage | _pynetworktables/_impl/storage.py:245-251 | the dispatch on the kind of message |
| Storage.Storage.SetValueByName | _pynetworktables/_impl/storage.py:647-659 | refused, with the entry created, if the types differ |
| Storage.Storage.SetTypeValueByName | _pynetworktables/_impl/storage.py:731-739 | changes the type as well |
| Storage.Storage.SetDefaultByName | _pynetworktables/_impl/storage.py:613-628 | sets only what has no value, and tells whether the type fits |
| Storage.Storage.SetValueByHandle | _pynetworktables/_impl/storage.py:661-675 | the variant by handle; an unknown handle changes nothing |
| Storage.Storage.SetFlagsByName | _pynetworktables/_impl/storage.py:752-760 | unknown names change nothing |
| Storage.Storage.DeleteByName | _pynetworktables/_impl/storage.py:813-823 | unknown names change nothing |
| Storage.Storage.DeleteEverything | _pynetworktables/_impl/storage.py:904-910 | a clear message if and only if something was deleted |
| Storage.Storage.Perform | _pynetworktables/_impl/storage.py:245-910 | every operation keeps the storage valid (cached value equals value, cached bit equals bit 0 of the flags, indexes shared) and does what the specification's step does, so that all results about steps hold of the object |
| Storage.Storage.GetInitialAssignments | _pynetworktables/_impl/storage.py:494-504 | one assignment per live entry, in the order of the entries |
| HandshakeSpec.SnapshotLists | _pynetworktables/_impl/storage.py:494-504 | the snapshot holds exactly the live entries with all their fields, in the order of the names, none more than once |
| HandshakeSpec.RequestsAsk | _pynetworktables/_impl/storage.py:583-605 | the client's requests are in the order of its names, none more than once |
| Storage.Storage.Initialise | _pynetworktables/_impl/storage.py:533-576 | a client's own value that is not persistent stays and is sent back with the next number; otherwise the server's is taken |
| Storage.Storage.ApplyInitialAssignments | _pynetworktables/_impl/storage.py:506-605 | the four loops of the client's half of the handshake: new table, updates for the queue and requests to send |
| Storage.Storage.LoadEntries | _pynetworktables/_impl/storage.py:1248-1319 | a file load, entry by entry, with its messages |
| Storage.Storage.TakePersistent | _pynetworktables/_impl/storage.py:1071-1083 | nothing to do if the flag is down on a periodic save; otherwise the live persistent entries, and the flag goes down |
| Storage.Storage.SaveEnded | _pynetworktables/_impl/storage.py:1321-1329 | only a failed periodic save raises the flag again |
| Storage.Storage.GetMessageEntryType | _pynetworktables/_impl/storage.py:213-222 | the type of the live entry with this id, if there is one |
| Loading.LoadDoes | _pynetworktables/_impl/storage.py:1248-1319 | a load leaves each listed name with its last value, its flags with the persistent bit if asked for, and its number advanced once for each item, and touches nothing else |
| Loading.LoadIsHeardIff | _pynetworktables/_impl/storage.py:1289-1319 | after every part of the list, clients that were in step have the server's names, values and flags from what was sent, if and only if each item that changes a value comes soon enough after the last one about the name that did |
| Loading.LoadIsHeard | _pynetworktables/_impl/storage.py:1289-1319 | in particular if no name is listed more than 32768 times |
| Loading.LongLoadIsLost | _pynetworktables/_impl/storage.py:1292-1292 | and not for 32768 items with the value that is there and then one with another |
| Loading.LoadHidesWritesIff | _pynetworktables/_impl/storage.py:1292-1292 | after a load that lists an entry k times, changed or not, the server takes the j-th write of a client that was in step with it if and only if j exceeds k |
| Loading.ClientLoadTells | _pynetworktables/_impl/storage.py:1289-1319 | what a client sends for an item, with an id and without one |
| FlagRaised.StepRaisesIff | _pynetworktables/_impl/storage.py:353-357 | the dirty flag is up after an operation or a message if and only if it was, the persistent entries have changed, an update of a persistent entry with the value that it has was taken, or an entry that has the mark but no value was deleted |
| DirtyFlag.StepDirty | _pynetworktables/_impl/storage.py:851-853 | an operation of a server that changes the set of persistent names and values leaves the flag raised |
| DirtyFlag.SpoilsIff | _pynetworktables/_impl/storage.py:1071-1083 | from a state in which the flag is up, or the persistent entries are in the server's own file or on their way there, exactly these events lead out of it: the start of a save on demand to another file, the end of a save that others have overtaken, a failed save on demand, a load that changes persistent entries, each unless the entries are in the file or on their way there all the same |
| DirtyFlag.RestoresIff | _pynetworktables/_impl/storage.py:1321-1329 | and exactly these lead back: an operation that raises the flag, the start of a save on demand to the own file, a failed periodic save, a load that brings back what the file has |
| DirtyFlag.FlagIsTruthfulIff | _pynetworktables/_impl/storage.py:1071-1083 | in every life of a server (operations, messages, loads, any number of saves at once, to its own file and to others, successful or not) the flag tells the truth exactly as long as nothing of the first kind happens, and again from the next event of the second kind on |
| DirtyFlag.FlagIsSound | _pynetworktables/_impl/storage.py:1071-1083 | as long as nothing of the first kind happens: if the flag is down and no save is under way, the own file holds the current persistent names and values |
| DirtyFlag.CarefulUseIsSound | _pynetworktables/_impl/dispatcher.py:351-357 | that is so in every life with one save at a time, always to the own file, in which no save on demand fails and nothing is loaded |
| DirtyFlag.StartIsClean | _pynetworktables/_impl/storage.py:1248-1319 | a server that starts from its own file, which may be empty, is a starting point, because the load leaves the flag alone |
| DirtyFlag.RestoredIff | _pynetworktables/_impl/storage.py:1321-1329 | once the flag lies, and until something spoils it again: in every run it tells the truth if and only if one of the events that restore it has happened since; saves to other files and periodic saves that succeed do nothing |
| DirtyFlag.OnDemandLoses | _pynetworktables/_impl/api.py:234-235 | a run of a new server: after a save on demand to another file, or one that fails, the flag is down, no save is under way and the own file is out of date |
| DirtyFlag.OverlappingSavesLose | _pynetworktables/_impl/storage.py:1071-1083 | the same after two successful saves to the own file, of which the first one to start is the last one to end |
| DirtyFlag.LoadIsNotSaved | _pynetworktables/_impl/storage.py:1248-1319 | the same after a load of one persistent entry into a new server |
| DirtyFlag.ListIsSnapshot | _pynetworktables/_impl/storage.py:1079-1083 | the list taken for a save holds exactly the persistent names with their values |
| DirtyFlag.ListedInOrder | _pynetworktables/_impl/storage.py:1079-1083 | and has them in the order of the handles, none more than once |
| Replication.StepAnnounced | _pynetworktables/_impl/storage.py:253-443 | every operation of a server sends at most one message, and that message turns the old live entries into the new ones |
| Replication.FollowStep | _pynetworktables/_impl/storage.py:276-372 | a client without own writes does with such a message what the message means, answers nothing and stays settled |
| Network.PlayKeepsSync | _pynetworktables/_impl/storage.py:677-910 | in every interleaving of server operations, messages of other clients and reads, the messages in flight turn the client's table into the server's |
| Network.EmptyIsSynced | _pynetworktables/_impl/storage.py:158-196 | two new storages are in sync, which is where every run may start |
| Network.DrainedClientEqualsServer | _pynetworktables/_impl/storage.py:253-443 | a client that has read everything shows exactly the server's ids, values, flags and sequence numbers |
| Network.DrainFollows | _pynetworktables/_impl/storage.py:245-251 | processing a list of messages is folding their meanings |
| Coalescer.EnqueueKeepsValid | _pynetworktables/_impl/network_connection.py:397-494 | in every pair at most one half is set, and it points at the last surviving message of the right kind for that id |
| Coalescing.CoalescingPreservesMeaning | _pynetworktables/_impl/network_connection.py:397-494 | the surviving messages mean the same as all messages queued: values, sequence numbers, flags, and the requests for ids in their order; for a client and for a server as the peer |
| CoalescingLimits.FaithfulAtClearIff | _pynetworktables/_impl/network_connection.py:475-492 | at a clear this holds if and only if no persistent entry is asked for, and each entry that was or is persistent is there before and now, with the same flags, and what was written or deleted of it in between was restored by the last assignment |
| CoalescingLimits.FaithfulIffUntouched | _pynetworktables/_impl/network_connection.py:475-492 | if no pending write repeats a number that the peer has, that is: if and only if no entry that was or is persistent is written, deleted or reflagged in between |
| CoalescingLimits.ClearLosesPersistentWrite | _pynetworktables/_impl/network_connection.py:475-492 | a persistent entry whose pending update a clear discards |
| CoalescingLimits.WritesMergeIff | _pynetworktables/_impl/network_connection.py:412-434 | merging two writes of an entry, updates or assignments, each ahead of what comes before it, is faithful if and only if together they go no further than 32768 increments |
| CoalescingLimits.ChainIsFaithfulIff | _pynetworktables/_impl/network_connection.py:412-434 | any number of accepted updates and assignments that become one: faithful if and only if the last number is at most 32768 increments ahead of the peer's, and not the same unless there is an assignment among them, or the entry is back where it was |
| CoalescingLimits.LongJumpIsLost | _pynetworktables/_impl/network_connection.py:412-434 | two accepted updates that merge into one that is rejected |
| CoalescingFits.SurvivorsFit | _pynetworktables/_impl/network_connection.py:397-494 | a follower can still take the surviving messages one by one |
| Connection.NetworkConnection.QueueOutgoing | _pynetworktables/_impl/network_connection.py:397-494 | the in-place edits of list and slots are those of the specified queue, for every kind of message |
| Connection.NetworkConnection.QueueClear | _pynetworktables/_impl/network_connection.py:475-492 | the loop knocks out exactly the pending entry messages |
| Connection.NetworkConnection.PostOutgoing | _pynetworktables/_impl/network_connection.py:497-519 | a batch if something is pending; otherwise a keep-alive if asked for and a second has passed |
| Connection.NetworkConnection.SetState | _pynetworktables/_impl/network_connection.py:195-228 | dead is final; which changes are announced |
| Connection.Surviving | _pynetworktables/_impl/network_connection.py:367-370 | the write thread skips exactly the gaps |
| Connection.Dispatcher.QueueOutgoing | _pynetworktables/_impl/dispatcher.py:388-404 | exactly the open connections that are neither excluded nor passed over get the message |
| Routing.ReceivesIff | _pynetworktables/_impl/dispatcher.py:388-404 | who gets a message is whom the runs of `Joining` and `Network` say: open connections but the sender's, or the one that it is for |
| Routing.QueueOne | _pynetworktables/_impl/dispatcher.py:388-404 | one message of the storage does to the queue of every connection what those runs say |
| Routing.QueueOutgoings | _pynetworktables/_impl/storage.py:236-243 | and so does the loop over a whole list after the lock has been given up |
| Routing.JoinerIsServed | _pynetworktables/_impl/dispatcher.py:388-404 | a move of a joining run queues what the dispatcher gives the connection of the joining client |
| Routing.PostAndWrite | _pynetworktables/_impl/network_connection.py:355-519 | a post and the write thread behind it put on the wire what is left of the messages queued, and leave the queue empty |
| Routing.PostsAgree | _pynetworktables/_impl/network_connection.py:497-519 | and that is what a post does in the runs of `EndToEnd`, `QueuedWriter` and `Joining` |
| EndToEnd.RunStaysInStep | _pynetworktables/_impl/network_connection.py:397-519 | server, queue and client in any run within the limits of the queue: at every moment, reading the wire and the next post leaves the client with the server's entries |
| EndToEnd.EmptyIsInStep | _pynetworktables/_impl/network_connection.py:62-105 | two new storages with an empty queue between them are a starting point |
| EndToEnd.ActKeepsInStep | _pynetworktables/_impl/network_connection.py:397-519 | each operation, post and read keeps that |
| OwnWrites.OwnStepWrites | _pynetworktables/_impl/storage.py:677-729 | a write that an operation of a server's own program sends has the next number of its entry, or a new id |
| OwnWrites.OwnRunStaysInStep | _pynetworktables/_impl/network_connection.py:397-519 | so the limit on numbers follows from fewer than 32768 such operations between two posts: in every run of that kind in which no clear comes upon a pending change of a persistent entry, the client is led to the server's entries |
| Handshake.HandshakeConverges | _pynetworktables/_impl/storage.py:494-605 | two arbitrary storages hold the same values, ids and sequence numbers afterwards: the client's value if it was written locally and is not persistent there, else the server's; names only the client has survive exactly if written locally |
| Handshake.HandshakeIsIdempotent | _pynetworktables/_impl/storage.py:506-605 | a second handshake changes no value on either side |
| Handshake.HandshakeStartsReplication | _pynetworktables/_impl/storage.py:551-561 | from then on the client follows the server, if and only if no entry whose value the client kept had other flags |
| Handshake.OfflineWriteSurvives | _pynetworktables/_impl/storage.py:551-561 | a value set while disconnected is what both sides end with, unless the entry is persistent at the client and the server has a value |
| Handshake.OfflineDeleteIsUndone | _pynetworktables/_impl/storage.py:843-847 | a deletion while disconnected is forgotten: both sides end with the server's value |
| OldServer.OldServerDecides | _pynetworktables/_impl/storage.py:506-605 | what becomes of every entry of a client that connects to a server of protocol 2.0, for any batch of assignments: it keeps its flags, and its value if it was written here and is not persistent, under the next number; otherwise the last assignment's value and number; entries that the server does not name go, unless they were written here |
| OldServer.OldServerHears | _pynetworktables/_impl/storage.py:549-605 | and exactly what the client sends: its value for every assignment of an entry that it keeps, and a request for every entry written here that the server does not name |
| Dialogue.TalksMeet | _pynetworktables/_impl/dispatcher.py:529-731 | if each side hears what the other says, with keep-alives in between, both accept, and each has read everything |
| Dialogue.TalksLeadToExchange | _pynetworktables/_impl/dispatcher.py:529-731 | and the storages are those of the exchange that the handshake results are about |
| Dialogue.TooNewIsRefused | _pynetworktables/_impl/dispatcher.py:645-652 | a client with a newer revision is told which one to use, and nothing changes on either side |
| Dialogue.GatherAssignments | _pynetworktables/_impl/dispatcher.py:576-609 | the collecting loop: assignments in order, keep-alives skipped, anything else or a lost connection refused |
| Dialogue.ServerHandshake | _pynetworktables/_impl/dispatcher.py:630-731 | what the server sends, accepts and refuses, its new table and the state of the connection |
| Dialogue.ClientHandshake | _pynetworktables/_impl/dispatcher.py:529-628 | the same for the client, and with which revision it is to connect again, if at all |
| Dialogue.FallsBack | _pynetworktables/_impl/dispatcher.py:547-555 | a client that is sent away by a server of revision 2.0 connects again with that revision; then both accept, the client takes the snapshot and its requests are left for the server to read |
| Refusing.ServerAcceptsIff | _pynetworktables/_impl/dispatcher.py:630-731 | a server accepts if and only if it is greeted in a revision that it speaks and, in protocol 3.0, hears nothing but assignments and keep-alives up to the closing message; if it refuses, its table is as it was |
| Refusing.ServerHasDone | _pynetworktables/_impl/dispatcher.py:665-727 | what an accepting server has said, taken in and left unread |
| Refusing.ClientAcceptsIff | _pynetworktables/_impl/dispatcher.py:529-628 | the same for a client, which is to connect again exactly if it is told to use the revision 2.0 |
| Refusing.ClientHasDone | _pynetworktables/_impl/dispatcher.py:562-628 | what an accepting client has said, taken in and left unread |
| PendingId.RunStaysGood | _pynetworktables/_impl/storage.py:260-333 | in every run in which nobody else writes the name, the entry is unwritten, requested, answered or numbered, and the messages in flight lead from the server's record to the client's |
| PendingId.DrainedServerHasLastWrite | _pynetworktables/_impl/storage.py:710-729 | once nothing is in flight both sides have the same value, flags, id and sequence number |
| PendingId.LastWriteReachesServer | _pynetworktables/_impl/storage.py:789-797 | from any stage, after reading what is in flight, the server has the value and the flags that the client wrote last, including retyping and flag changes made while the id was pending |
| PendingId.ReadLightens | _pynetworktables/_impl/storage.py:245-251 | reading comes to an end: every read takes off more than its answers add |
| PendingId.ReplyKeepsValueIff | _pynetworktables/_impl/storage.py:310-334 | when the id arrives the client keeps its value if and only if it is 1 to 32767 changes ahead or the values are the same |
| PendingId.SyncedIsGood | _pynetworktables/_impl/storage.py:506-605 | a server and a client in sync are a starting point for any name, new or not |
| PendingId.OneWriterConverges | _pynetworktables/_impl/storage.py:677-797 | from a start in sync, through any run in which only this client writes the name, server and client end with the value and the flags that the client wrote last |
| QueuedWriter.LaneStaysGood | _pynetworktables/_impl/network_connection.py:397-519 | the same stages hold with the outgoing queues of both sides in between, after every operation, post and read |
| QueuedWriter.QueuedWriterConverges | _pynetworktables/_impl/network_connection.py:397-519 | and once everything is posted and read, server and client have the value and the flags that the client wrote last, although the queues have merged requests, updates and flags on the way |
| Rivals.RivalsAgreeIff | _pynetworktables/_impl/storage.py:384-391 | if server and client, in sync, set an entry k and m times, both below 32768, the one that wrote more often wins on both sides; if k equals m each keeps its own, so that they agree if and only if k differs from m or the last values are the same |
| Rivals.SimultaneousWritesStay | _pynetworktables/_impl/storage.py:384-391 | the smallest case: one write on each side leaves the two apart for good |
| Handout.NothingLostOrDoubledIff | _pynetworktables/_impl/storage.py:230-243 | in every run of threads through locked regions that has come to rest: if no thread entered between another's release and the start of its loop, every message was queued exactly once, otherwise a whole list was never queued; so, if no list is empty, it is an if-and-only-if |
| Handout.GoneThroughIff | _pynetworktables/_impl/storage.py:237-243 | for one list, in any run: some loop goes through it if and only if a loop starts while it is the last list made |
| Handout.NeverQueuedUnless | _pynetworktables/_impl/storage.py:237-243 | if no loop does, none of its messages is ever queued |
| Handout.AllStartedIff | _pynetworktables/_impl/storage.py:237-243 | some loop has gone through every list if and only if there was no such intrusion |
| Handout.SharedListLosesMessage | _pynetworktables/_impl/storage.py:230-243 | a run after which the first of two messages is never queued and the second is queued twice, whatever they are |
| Survivors.SurvivingWrites | _pynetworktables/_impl/network_connection.py:412-473 | among what is left of an entry in the queue is a write with a given number if and only if the next thing queued about the entry after some write with that number, if there is one, was a flags update |
| PerEntry.QueueByEntry | _pynetworktables/_impl/network_connection.py:397-473 | if no clear is queued, what the queue holds of one entry is what it would hold if nothing about other entries had been queued |
| Arrivals.TimelyAfterQueue | _pynetworktables/_impl/network_connection.py:412-434 | the writes that the peer reads no earlier than the first assignment of the id are those that survive and have an assignment queued at or before them |
| Arrivals.FateAfterQueue | _pynetworktables/_impl/network_connection.py:412-473 | the queue does not change whether an assignment or a deletion of an entry comes last |
| Tracking.SpotStep | _pynetworktables/_impl/storage.py:245-251 | a server's operation moves the number of an entry only forward, and then hands out a message that carries number and value; what it hands out about the entry is a value that the entry has had |
| Tracking.ShownEndsAtTopIff | _pynetworktables/_impl/storage.py:374-405 | whatever order messages arrive in, a client that shows an entry ends with the furthest value if and only if it had it or a write of it is among them |
| Tracking.AbsentEndsAtTopIff | _pynetworktables/_impl/storage.py:291-316 | a client that does not have the entry does if and only if such a write comes no earlier than the first assignment of the id |
| Joining.SnapshotEntrySafeIff | _pynetworktables/_impl/storage.py:494-504 | in every interleaving of regions, loops, snapshot and posts: an entry that was in the snapshot ends at the server's value and number if and only if the snapshot had that number, or a write with it is the last of its stretch in what was queued up to some post |
| Joining.NewEntrySafeIff | _pynetworktables/_impl/storage.py:318-391 | an entry that was not in the snapshot does if and only if a write with the server's number is the last of its stretch in what was queued up to some post, and an assignment of the id was queued at or before it or up to an earlier post |
| Joining.OrderedQueueIsSafe | _pynetworktables/_impl/storage.py:230-243 | an entry of the snapshot is safe if all threads are through, none has entered between another's release and its loop, and writes were queued in the order in which they were made |
| Overtaken.OvertakenWriteIsLost | _pynetworktables/_impl/network_connection.py:412-434 | for every server, entry and client: nothing is lost or doubled, but the second of two writes is queued first, and the client keeps the first value for good |
| Tracking.ClientTakes | _pynetworktables/_impl/storage.py:318-391 | a client takes a write exactly when it is further on; one that the snapshot or a later message already reflects changes neither value nor number |
| Overtaken.OvertakenAssignmentIsLost | _pynetworktables/_impl/storage.py:374-382 | for every server, new entry and client: the same happens with a post in between, because the update comes before the assignment |
| Overtaken.OvertakenDeletionIsLost | _pynetworktables/_impl/storage.py:421-434 | for every server, new entry and client: an entry is set and deleted, the deletion is queued first, and the client keeps for good what the server does not have |
| Leaving.ShownIff | _pynetworktables/_impl/storage.py:421-434 | in every interleaving, with deletions of the entry: the client has it in the end if and only if the last assignment or deletion of it that was queued since the snapshot is an assignment, or there was none and the snapshot had it |
| Leaving.DeletionReachesClientIff | _pynetworktables/_impl/storage.py:834-872 | so an entry that is deleted on the server ends deleted on the client if and only if no assignment of it was queued after the last deletion, or none of the two was and the snapshot did not have it |
| Leb128.RoundTrip | _pynetworktables/_impl/support/leb128.py:23-45 | reading an encoding gives the number back and leaves exactly the bytes that follow |
| Leb128.SizeIsLength | _pynetworktables/_impl/support/leb128.py:13-33 | the announced size is the length of the encoding |
| Leb128.EncodingIsMinimal | _pynetworktables/_impl/support/leb128.py:23-33 | no shorter byte string reads as the number |
| Leb128.SizeUleb128 | _pynetworktables/_impl/support/leb128.py:13-20 | the loop |
| Leb128.EncodeUleb128 | _pynetworktables/_impl/support/leb128.py:23-33 | the loop |
| Leb128.ReadUleb128 | _pynetworktables/_impl/support/leb128.py:36-45 | the loop, and its failure at the end of the stream |
| WireRoundTrip.ValueRoundTrip | _pynetworktables/_impl/wire.py:112-195 | a written value is read back with the rest of the stream in step; arrays come back as their first 255 elements, strings of protocol 2.0 as their first 65535 bytes |
| WireRoundTrip.MessageRoundTrip | _pynetworktables/_impl/message.py:85-228 | every message that can be written is read back, in both revisions; in protocol 2.0 flags come back as 0 and the messages of 3.0 write no bytes |
| WireRoundTrip.StreamRoundTrip | _pynetworktables/_impl/message.py:85-228 | the same for whole streams, in both revisions |
| WireRoundTrip.StreamRoundTripV3 | _pynetworktables/_impl/message.py:85-228 | in protocol 3.0 any list of messages in range is given back exactly, with nothing left over |
| WireRoundTrip.UpdateReadIff | _pynetworktables/_impl/message.py:104-111 | in protocol 2.0 an update is read as sent if and only if the reader's entry has the type of the value |
| WireCodec.WireCodec.ReadTyped | _pynetworktables/_impl/wire.py:112-148 | the reader of values, with its array loops and failures |
| WireCodec.WireCodec.PutValue | _pynetworktables/_impl/wire.py:150-191 | the writer of values, with its array loops and failures |
| WireCodec.WireCodec.ReadNext | _pynetworktables/_impl/message.py:85-154 | the reader of messages consumes exactly the bytes that the specification says, or fails as it does |
| WireCodec.WireCodec.PutMessage | _pynetworktables/_impl/message.py:157-228 | the writer appends exactly the bytes that the specification says, or fails as it does |
| WireCodec.WireCodec.PutBatch | _pynetworktables/_impl/network_connection.py:367-378 | a batch is written as the concatenation of its messages |
| WireLayout.EncodedHasLayout | _pynetworktables/_impl/support/leb128.py:23-33 | seven-bit groups, lowest first, the highest bit set in all bytes but the last, and no group for nothing |
| WireLayout.MessageHasLayout | _pynetworktables/_impl/message.py:157-228 | every message that is written has its kind, numbers, type, strings and value at the places and in the byte order of the protocol, in both revisions |
| WireLayout.WritableIff | _pynetworktables/_impl/message.py:157-228 | a message can be written if and only if its numbers fit their fields and the revision has its type |
| WireRefusal.PrefixWaits | _pynetworktables/_impl/message.py:85-154 | however the bytes of a message are cut, the reader waits for the rest: it never takes a part for another message or for an error |
| WireRefusal.ReadIsThere | _pynetworktables/_impl/message.py:85-154 | whatever is read is a message of this revision that could have been written, with its kind, type and numbers where they belong: unknown kinds and types, a wrong magic number and an update of unknown type are refused |
| WireRefusal.BoolsThere | _pynetworktables/_impl/wire.py:112-148 | any byte but 0 is read as true |
| OldPeers.OldClientReadsServer | _pynetworktables/_impl/storage.py:213-222 | a client of protocol 2.0 that has the server's entries with their types, whatever their flags and whatever else it still holds, reads everything the server sends about its own operations |
| OldPeers.OldClientReadsRelayIff | _pynetworktables/_impl/storage.py:402-405 | it reads a relayed update as sent if and only if the entry has the type of the new value |
| PersistentText.UnescapeUndoesEscape | _pynetworktables/_impl/storage_save.py:57-66 | unescaping undoes escaping for every string, with and without the shortcut |
| PersistentText.NoBareQuote | _pynetworktables/_impl/storage_save.py:57-66 | an escaped string has no quote that is not escaped, and does not end in half an escape |
| PersistentText.MatchesToClosingQuote | _pynetworktables/_impl/storage_load.py:26-26 | the pattern matches exactly up to the quote that was printed after the string |
| PersistentText.TokensOfQuotedList | _pynetworktables/_impl/storage_load.py:158-164 | the tokeniser finds exactly the printed strings of a list |
| PersistentText.StringArrayRoundTrip | _pynetworktables/_impl/storage_save.py:100-104 | a printed list of strings is read back if and only if it is not the list of one empty string, which is read as empty |
| PersistentText.StringRoundTrip | _pynetworktables/_impl/storage_save.py:88-90 | a single printed string is read back |
| PersistentFile.KeyMatches | _pynetworktables/_impl/storage_load.py:18-24 | a printed key matches its pattern with exactly its escaped name, unless the name is empty |
| PersistentFile.OnlyItsKind | _pynetworktables/_impl/storage_load.py:18-24 | and no pattern of another type |
| PersistentFile.ItemRoundTrip | _pynetworktables/_impl/storage_load.py:81-166 | a saved entry of any type is loaded with its name, type and value, given that the library reads back the doubles and raw bytes it prints |
| PersistentFile.FileRoundTrip | _pynetworktables/_impl/storage_load.py:66-173 | loading a saved list gives exactly the entries that can come back and have the prefix, in order |
| PersistentFile.FileIsUnchangedIff | _pynetworktables/_impl/storage_save.py:69-108 | all come back as they were if and only if each is named, is no RPC definition and is not the list of one empty string |
| PersistentFile.SaveEntries | _pynetworktables/_impl/storage_save.py:75-108 | the loop of saving |
| PersistentFile.ReadBooleanArray | _pynetworktables/_impl/storage_load.py:116-136 | the loop of a boolean array: all elements, or none at the first bad one |
| PersistentFile.ReadDoubleArray | _pynetworktables/_impl/storage_load.py:138-156 | the loop of a double array |
| PersistentFile.LoadEntries | _pynetworktables/_impl/storage_load.py:63-173 | the loop that commits each entry one round later loads the same as parsing item by item |
| PersistentFormat.EscapeLooks | _pynetworktables/_impl/storage_save.py:30-66 | which characters stand for themselves, and how the others are printed |
| PersistentFormat.OneEscape | _pynetworktables/_impl/storage_load.py:30-42 | the one-letter escapes that are read, and that others are left as they are |
| PersistentFormat.HexEscape | _pynetworktables/_impl/storage_load.py:30-42 | the two-digit escape, and that nothing less will do |
| PersistentFormat.KeyLooks | _pynetworktables/_impl/storage_save.py:75-108 | the key of an item of each type |
| PersistentFormat.ValueLooks | _pynetworktables/_impl/storage_save.py:80-98 | how booleans, doubles and their arrays are printed |
| PersistentFormat.TextLooks | _pynetworktables/_impl/storage_save.py:88-104 | how strings and their arrays are printed |
| PersistentFormat.TextIsRead | _pynetworktables/_impl/storage_load.py:81-114 | for any text under a printed key of a boolean, a double or raw bytes: what is loaded, passed over or raised |
| PersistentFormat.ArraysAreRead | _pynetworktables/_impl/storage_load.py:116-166 | the same for strings and arrays: one bad boolean passes the array over, one bad double or escape ends the load |
| PersistentScan.StringEnds | _pynetworktables/_impl/storage_load.py:26-26 | the pattern of quoted strings, on any text: it matches up to the first quote that no backslash escapes, unless an end of line is escaped before it |
| PersistentScan.StringDoesNotEnd | _pynetworktables/_impl/storage_load.py:26-26 | and does not match if there is no such quote |
| PersistentScan.SingleString | _pynetworktables/_impl/storage_load.py:99-107 | a single string is what its opening quote and the end so found enclose, and what follows is ignored |
| PersistentScan.TokensGoOn | _pynetworktables/_impl/storage_load.py:158-164 | the tokeniser passes over what is no string character by character, and over one comma after each string |
| PersistentScan.UnescapeLooks | _pynetworktables/_impl/storage_load.py:34-42 | text without a backslash is taken as it is; with one it is a literal, in which bare quotes and ends of line are errors |
| PersistentScan.PartsMakeText | _pynetworktables/_impl/storage_load.py:116-156 | the parts of an array joined by commas are its text, and no part has a comma |
| PersistentScan.Stripped | _pynetworktables/_impl/storage_load.py:116-156 | stripping takes away exactly the white space at both ends |
| PersistentScan.SpaceLooks | _pynetworktables/_impl/storage_load.py:116-156 | which characters are white space |
| PersistentScan.KeyIs | _pynetworktables/_impl/storage_load.py:18-24 | a key is the name of the type, a space, a quote, and then everything up to the last quote of the line, if that is anything |
| PersistentFormat.SpacesAround | _pynetworktables/_impl/storage_load.py:116-156 | white space before an array does not matter |
| PersistentFormat.SpacesBehind | _pynetworktables/_impl/storage_load.py:116-156 | nor white space behind it |
| PersistentFormat.LoadStopsIff | _pynetworktables/_impl/storage_load.py:63-173 | a load ends without entries if and only if some item raises or has a name that cannot be unescaped |

## Left out

- Storage.Storage.ProcessMessage: the two RPC messages have no effect here; the source's handlers keep calls and results, and are unfinished.
- RPC: `createRpc`, `callRpc`, `getRpcResult` and the RPC messages' handlers are unfinished in the source; the messages themselves are encoded.
- Listeners, pollers and notifications: who is told what, and how often.
- Sockets, threads, condition variables, timers and reconnecting: a lock region is one step (`Handout` follows what happens after it), a stream is a byte sequence, a channel is a queue.
- Serial arithmetic on numbers outside 16 bits: the source never produces them.
- Doubles are their eight bytes: NaN is unequal to itself and -0.0 equals 0.0 in the source, and not here.
- UTF-8: strings on the wire are bytes, strings in the persistent file are Unicode characters (surrogates do not occur).
- `PersistentText.Literal`: octal, `\N`, `\u` and `\U` escapes and adjacent literals are not read, because saving never writes them.
- PersistentFile.FileRoundTrip: the configuration file format around the items is not modelled; names with `=` or `:` depend on its delimiters. Entries have distinct names, so that no item replaces another. Printing and parsing of doubles and base64 are parameters, with the laws that what is printed is read back and that base64 is ASCII.
- Loading.LoadIsHeardIff: what server operations and the loads of other lists send in between; the numbers that clients hear of drift further with every load.
- Effects.TypeStays: loads, which are no operations here; `Loading.LoadDoes` says what they do.
- Storage.Storage.TakePersistent: the list is in the order of the entries; the source sorts it by name afterwards.
- DirtyFlag.FlagIsSound: two saves to one file also write to the same temporary file; here each save replaces the file as a whole, and one that fails leaves it as it was. A thread makes one save at a time.
- Storage.Storage.SetFlagsByName: negative handles, which the source's list indexing accepts, are not modelled, nor are the by-handle variants other than the one of setting a value; they repeat the variants by name.
- Storage.Storage.GetInitialAssignments: the state of the connection is set by the caller in `Dialogue.ServerHandshake`, inside the same lock region.
- Dialogue.ClientHandshake: remote identities and the unused flag for a new server.
- Handshake.HandshakeConverges: the handshake proper and the queues that follow it, without other writers in between; flags are covered by `Handshake.HandshakeStartsReplication`.
- Network.PlayKeepsSync: an operation and the queueing of its message are one step, so that messages are in the order of the operations; several threads, whose messages may be lost, doubled or overtaken on the way, are the subject of `Handout` and `Joining`. The client writes nothing itself; a writing client is the subject of `PendingId.OneWriterConverges`. More than one writer of a name at a time is excluded, for the reason of `Rivals.RivalsAgreeIff`.
- EndToEnd.RunStaysInStep: an operation and the queueing of its message are one step here too; see `Handout` and `Joining` for several threads.
- PendingId.RunStaysGood: nobody deletes the name and nobody clears; an operation and the queueing of its message are one step. The outgoing queues in between are the subject of `QueuedWriter`.
- QueuedWriter.QueuedWriterConverges: the same limits; the client stays less than half a window ahead of what is arriving at the server; `CoalescingLimits.ChainIsFaithfulIff` says what happens to numbers further apart.
- Handout.NothingLostOrDoubledIff: regions that end in an exception, after which the source queues nothing.
- Joining.SnapshotEntrySafeIff: value and sequence number only, because flags messages carry no number; no clear, no deletion of the entry (which is the subject of `Leaving`), one writer of it at a time, and within half a window of numbers. At the start no message is on its way.
- Joining.NewEntrySafeIff: the same limits.
- Leaving.ShownIff: no clear, and the name is not set again, under a new id, after it was deleted; whether the client has the entry, not which value of it.
- OwnWrites.OwnRunStaysInStep: messages of other connections may carry any numbers; for them the limit stays a condition, in `EndToEnd.RunStaysInStep`.
- Rivals.RivalsAgreeIff: the two sides read only after they have written.
- Coalescer.EnqueueKeepsValid: a flags message with the id 0xFFFF takes a slot like any other, as in the source, whose test for it compares the wrong variable; storage never sends one.
- WireCodec.WireCodec.PutMessage: what is left in the list after a failed write is not specified, and a codec has one revision for its life.
- A server that becomes a client or the other way round, and the test mode.
