# sairedis: object ids, messages and transport, in Dafny

A Dafny 4.11 model of the core of sairedis, with proofs. Check everything with
`dafny verify dfyconfig.toml`.

| file | what it models |
|---|---|
| `Common.dfy`, `Text.dfy` | fixed-width integers, exceptions as results, sequence facts, searching, splitting, printing and reading text and numbers |
| `ObjectId.dfy` | the 64-bit layout of virtual object ids (VIDs) and the static queries on it |
| `VidAllocation.dfy` | index generators, switch configurations, and the allocating half of `VirtualObjectIdManager` |
| `VidRuns.dfy` | runs of many processes in many contexts that allocate VIDs |
| `PollChannel.dfy` | the REP socket that the poll thread and the server thread share through a flag |
| `ReqChannel.dfy` | the REQ socket with its retry loops and its reset on timeout |
| `Transport.dfy` | communication modes, sync and buffered calls, over runs of one context |
| `Contexts.dfy` | loading `context_config.json` with its conflict rules |
| `Sai.dfy` | all contexts together: initialization, broadcast attributes, routing by id |
| `AttributeText.dfy` | attribute lists as `field=value\|field=value` text and the lists read back |
| `BulkCreate.dfy` | bulk create from the client through the server and back |
| `EnumList.dfy` | the reply to an enum capability query |
| `RecordLine.dfy` | the bulk create line of the record file and its reader |
| `MetaKeys.dfy`, `ObjectCollection.dfy` | key equality and hash, the hash table and the object collection on it |
| `AttrKeys.dfy` | the canonical text of an object's key attributes |
| `OidRefs.dfy` | reference counts |
| `SwitchLifecycle.dfy` | create, connect, remove and INIT_VIEW of switches |

Conventions. A C++ exception is `Thrown` (or a false `ok`), and so is a use of a null channel.
Objects that the source updates in place are classes; each method's `ensures` ties the new state to
a function of the old one, and the lemmas are about those functions. `for` and `while` loops are
where the source has loops. Printed names of statuses, object types and attributes stand for the
values themselves.

## Findings

* `ObjectIndexIsNarrowed`: `getObjectIndex` returns only the low 32 bits of a 39-bit index.
* `CountsOutOfRange`: from 2^31 objects on a client's bulk create can never succeed, because
  `2 * object_count` wraps in 32 bits. With no objects the server throws before it replies.
* `ModeTravelsExactly`: the error mode of a remote bulk create does not reach the server, which
  always uses IGNORE_ERROR.
* `DeliveredExactly`: the attribute text breaks on values that contain `|`. SaiSerialize prints
  flag enums as `A|B` (meta/SaiSerialize.cpp:839-875), so this is not only theoretical.
* `RecordRoundTripExactly`: an object recorded without attribute text cannot be read back.
* `EveryInterleavingIsSafe`: a request with an empty key is received and never answered; the
  channel then rests for ever. All requests before it are answered.
* `MeetExactly`, `CrossedEndpointsMeet`: two contexts that leave out `zmq_enable` can end up on one
  endpoint, and so can any two contexts not locked to Redis of which one sends requests where the
  other receives notifications, because the load-time rule never compares those two. There is no
  other way. Two contexts that share their notification endpoint get there only if the second bind
  of it goes through; `MeetBoundOnceExactly` is the statement for endpoints that bind only once.
* `StuckHistories`: after a reply that was neither received nor timed out, every further ZMQ call
  throws until the channel is replaced; no timeout frees the socket.
* `SwitchCreateNeedsContextZero`: no switch can be created in any context unless context 0 is loaded.
* `FailedRecreateStrandsTheSwitch`: a create with INIT_SWITCH true for a switch that is already
  held, if it fails remotely, releases the index of the held switch, whose removal then throws.
  `StrayRemovalStrandsTheSwitch`: so does the removal of another switch id with its index, because
  `remove` releases the index before it finds that the switch is not held. `RemovableExactly`: nothing
  else does, and the next connect, or create that does not fail remotely, gives the index back,
  even when it throws.
* `ThrowingDecrementLosesTheBalance`: a decrement that throws has already written -1.
* `SymmetricExactly`, `ReflexiveExactly`, `UnknownFamiliesBreakTheLaws`: for unknown address
  families key equality is not symmetric, and a multicast key with an unknown source family has a
  hash but is not equal to itself.

## Model

| member | source | states |
|---|---|---|
| ObjectId.PackIsLayout | lib/VirtualObjectIdManager.cpp:369-394 | shifting and or-ing five fields that fit their bits never overlaps: the word is their mixed-radix number |
| ObjectId.DecodeConstructed | lib/VirtualObjectIdManager.cpp:396-478 | every valid type, base or extension, switch index, context and 39-bit index is decoded from the constructed id |
| ObjectId.ConstructDecoded | lib/VirtualObjectIdManager.cpp:369-470 | every id of valid type is rebuilt exactly from its decoded fields |
| ObjectId.ConstructInjective | lib/VirtualObjectIdManager.cpp:369-394 | two constructed ids are equal exactly when type, switch, index and context are |
| ObjectId.SwitchIdDecodes | lib/VirtualObjectIdManager.cpp:350-355 | a switch id is never null and decodes to the switch type, its index and its context |
| ObjectId.SwitchIdQueryIdempotent | lib/VirtualObjectIdManager.cpp:396-425 | the switch of an id is its own switch, for every 64-bit id, and keeps switch index and context |
| ObjectId.SwitchQueriesAgree | lib/VirtualObjectIdManager.cpp:117-153 | `saiSwitchIdQuery` throws exactly on non-null ids of invalid type and otherwise agrees with `switchIdQuery` |
| ObjectId.UpdateChangesOnlyIndex | lib/VirtualObjectIdManager.cpp:480-508 | `updateObjectIndex` throws exactly on invalid types and too large indexes, and changes the index only |
| ObjectId.ObjectIndexIsNarrowed | lib/VirtualObjectIdManager.cpp:472-478 | `getObjectIndex` returns the index modulo 2^32, hence the index itself exactly below 2^32 |
| SwitchConfigs.SwitchConfigContainer.Insert | lib/SwitchConfigContainer.cpp:7-34 | both maps always hold the same configs; a taken index or hardware info throws and changes nothing |
| SwitchConfigs.SwitchConfigContainer.HardwareInfosHaveDistinctIndexes | lib/SwitchConfigContainer.cpp:7-64 | different hardware infos have different switch indexes |
| VidAllocation.RedisVidIndexGenerator.Increment | lib/RedisVidIndexGenerator.cpp:20-28 | advances the shared counter by one and returns it; throws where the counter cannot advance |
| VidAllocation.RedisVidIndexGenerator.IncrementBy | lib/RedisVidIndexGenerator.cpp:30-50 | returns the next indexes in order, and the inclusive 64-bit loop ends |
| VidAllocation.NumberOidIndexGenerator.IncrementBy | meta/NumberOidIndexGenerator.cpp:21-35 | the same indexes as that many single increments, also across the 64-bit wrap |
| VidAllocation.BatchEqualsSingles | lib/VirtualObjectIdManager.cpp:216-314 | a batch succeeds exactly when the single calls all do, with the same ids and the same counter: checking the last index bounds all |
| VidAllocation.AllocatesExactly | lib/VirtualObjectIdManager.cpp:262-314 | a batch succeeds exactly when it is empty, or asks for valid types other than the switch on a switch and its last index fits; indexes are used up also when only that last check fails |
| VidAllocation.AllocatedIdsDecode | lib/VirtualObjectIdManager.cpp:262-314 | the k-th id of a batch has the k-th type, the next index but k, the requested switch and the context |
| VidAllocation.VirtualObjectIdManager.AllocateNewObjectId | lib/VirtualObjectIdManager.cpp:216-260 | returns or throws, and moves the counter, as the specification function says |
| VidAllocation.VirtualObjectIdManager.AllocateNewObjectIds | lib/VirtualObjectIdManager.cpp:262-314 | fills the caller's array with the specified ids, or throws leaving it alone |
| VidAllocation.VirtualObjectIdManager.AllocateNewSwitchObjectId | lib/VirtualObjectIdManager.cpp:316-356 | null without a config, exception for an index above 255, else the switch id with its index marked |
| VidAllocation.VirtualObjectIdManager.ReleaseObjectId | lib/VirtualObjectIdManager.cpp:199-214 | throws exactly for a switch whose index is not marked; unmarks that index and no other |
| VidRuns.StepKeepsInv | lib/VirtualObjectIdManager.cpp:262-314 | every action of every process keeps: each index belongs to one issued id or one pending request |
| VidRuns.StepOnlyAdds | lib/RedisRemoteSaiInterface.cpp:2499-2514 | no action, INIT_VIEW included, forgets an issued VID or lowers the counter, and none touches another context |
| VidRuns.RunOnlyAdds | lib/RedisRemoteSaiInterface.cpp:2499-2514 | over every run each context keeps all the object VIDs it has issued, in order, and all switch VIDs |
| VidRuns.ReservedIdsAreIssued | lib/VirtualObjectIdManager.cpp:262-314 | a reservation and its later construction, with any events of others and any INIT_VIEW in between, issue exactly the ids that one undisturbed allocation would have returned at the moment of the reservation |
| VidRuns.SwitchEventsDo | lib/VirtualObjectIdManager.cpp:316-356 | a switch allocation adds its id and marks its index; INIT_VIEW unmarks the indexes of its process and does nothing else |
| VidRuns.IssuedVidsAreUnique | lib/RedisRemoteSaiInterface.cpp:2499-2514 | over every run of any processes and contexts, with INIT_VIEW resets, object VIDs are pairwise distinct, not null, and name their context |
| VidRuns.SwitchVidsNameTheirContext | lib/VirtualObjectIdManager.cpp:316-356 | after every run each switch VID, also of a context that has issued nothing else, is not null and names its context |
| VidRuns.ObjectVidsAreNoSwitchVids | lib/VirtualObjectIdManager.cpp:262-356 | after every run no object VID of any context is a switch VID of any context |
| PollChannel.StepKeepsInv | meta/ZeroMQSelectableChannel.cpp:84-261 | every atomic action keeps the hand-over invariant and loses no request |
| PollChannel.EveryInterleavingIsSafe | meta/ZeroMQSelectableChannel.cpp:84-261 | in every interleaving the threads never share the socket, receive and reply alternate, the queue holds at most one, `pop` finds a message, requests keep their order, and only requests before the first with an empty key are answered |
| PollChannel.RaisedFlagIsSeen | meta/ZeroMQSelectableChannel.cpp:84-155 | `m_allowZmqPoll` is raised only while the poll thread waits for it and stays raised until it has left the wait |
| PollChannel.FairStretchLowersRank | lib/ServerSai.cpp:689-812 | every stretch of a schedule in which both threads get a turn, in any order and with any arrivals, brings the requests that came before it closer to their answers |
| PollChannel.AnswerableRequestsAreAnswered | lib/ServerSai.cpp:689-812 | under every schedule that keeps giving both threads turns, whatever else arrives, all requests before the first with an empty key are answered within a bound |
| PollChannel.ZeroMQSelectableChannel.ZmqPollThread | meta/ZeroMQSelectableChannel.cpp:84-155 | each action of the object is the poll step of the state machine |
| PollChannel.ZeroMQSelectableChannel.ReadData | meta/ZeroMQSelectableChannel.cpp:235-261 | receiving is the server step that moves one request from the socket to the queue |
| PollChannel.ZeroMQSelectableChannel.Pop | meta/ZeroMQSelectableChannel.cpp:166-192 | takes the oldest message, or throws on an empty queue |
| PollChannel.ZeroMQSelectableChannel.Set | meta/ZeroMQSelectableChannel.cpp:194-226 | sends where the socket allows it and raises the flag in every case |
| PollChannel.ZeroMQSelectableChannel.ServerThreadFunction | lib/ServerSai.cpp:689-812 | each turn of the server thread is the serve step of the state machine |
| ReqChannel.RetryTakesFirstFinished | lib/ZeroMQChannel.cpp:215-372 | a retry loop ends with the first attempt that was not interrupted, if one comes within the limit |
| ReqChannel.RetryExactly | lib/ZeroMQChannel.cpp:215-372 | a retry loop yields an outcome exactly when one of the first eleven attempts ends with it and all before that one are interrupted |
| ReqChannel.WaitReturnsExactly | lib/ZeroMQChannel.cpp:262-372 | `wait` returns a status exactly when the reply to the command carries it, or as a failure after a timeout with a successful reconnect; it throws in all other cases |
| ReqChannel.ZeroMQChannel.Set | lib/ZeroMQChannel.cpp:215-249 | a socket that awaits a reply refuses to send; otherwise it awaits one exactly when the send succeeded |
| ReqChannel.ZeroMQChannel.Wait | lib/ZeroMQChannel.cpp:262-372 | for every behaviour of the network returns exactly the status that the reply or the timeout gives, a timeout replacing the socket by a fresh one |
| Transport.RunKeepsInv | lib/RedisRemoteSaiInterface.cpp:63-145 | over every run without an exception: locked contexts stay on their transport, sync means unbuffered, the timeout follows the channel, a ZMQ socket is ready between calls, and the channel is null exactly while the last mode is invalid |
| Transport.ChannelFollowsLastRequests | lib/RedisRemoteSaiInterface.cpp:286-500 | within a session the kind and timeout of the channel, sync mode and buffering are those of the last requests, or of the file where it decides |
| Transport.CallsReturnExactly | lib/RedisRemoteSaiInterface.cpp:970-1085 | from the requests of the session alone: on Redis a waiting call returns the status of its wait and any other one success; on ZMQ a call returns the status of its reply once the request has gone out; without a channel it throws |
| Transport.AttributesReturnExactly | lib/RedisRemoteSaiInterface.cpp:286-500 | how each transport attribute ends, from the requests before it: an exception without a channel, NOT_SUPPORTED for an unknown mode and for pipelining in sync mode |
| Transport.SessionsBeginAndEnd | lib/RedisRemoteSaiInterface.cpp:63-145 | initialization acts once, by the file alone, and uninitialization once; after it, and after a ZMQ channel could not be opened, there is no channel |
| Transport.ZmqCallsAlternate | lib/RedisRemoteSaiInterface.cpp:1063-1085 | in every reachable state on ZMQ a call sends once and then waits once, and can send again once it has returned |
| Transport.StuckHistories | lib/ZeroMQChannel.cpp:215-372 | over histories that go on after caught exceptions: the REQ socket cannot send exactly when a call on ZMQ lost its reply and the channel has not been replaced since by a mode request or by ending or starting the session; every call on it throws and changes nothing |
| Transport.AsyncZmqWouldFail | lib/RedisRemoteSaiInterface.cpp:1063-1085 | without sync mode the second call on ZMQ would throw |
| Transport.RedisRemoteSaiInterface.ApiInitialize | lib/RedisRemoteSaiInterface.cpp:63-119 | the object ends in the state and with the result of the specification |
| Transport.RedisRemoteSaiInterface.SetCommunicationMode | lib/RedisRemoteSaiInterface.cpp:377-487 | the mode attribute acts as specified, an invalid mode leaving the channel null |
| Transport.RedisRemoteSaiInterface.SetRedisExtensionAttribute | lib/RedisRemoteSaiInterface.cpp:286-545 | every transport attribute acts as specified |
| Transport.RedisRemoteSaiInterface.Perform | lib/RedisRemoteSaiInterface.cpp:970-1085 | a call sends and waits as specified for its kind, mode and network |
| ContextConfigs.ConflictIsSymmetric | lib/ContextConfig.cpp:44-142 | two configurations conflict in either order or in neither |
| ContextConfigs.ConflictExactly | lib/ContextConfig.cpp:44-142 | two configurations conflict exactly when they share a guid, a name or one of three databases, or an endpoint in a combination of `zmq_enable` that could use it twice |
| ContextConfigs.LoadedContextsAreCompatible | lib/ContextConfigContainer.cpp:75-182 | any two contexts of a loaded file have different guids, names and ASIC, counter and flex databases, and share an endpoint only if one is locked to Redis or neither names ZMQ |
| ContextConfigs.LoadsExactly | lib/ContextConfigContainer.cpp:75-182 | exactly the contexts of the items, with defaults for what these leave out, if they may coexist and have distinct switches; otherwise the default context alone |
| ContextConfigs.ContextConfigContainer.Insert | lib/ContextConfigContainer.cpp:44-60 | throws exactly when a loaded context conflicts, leaving the container alone |
| ContextConfigs.ContextConfigContainer.LoadFromFile | lib/ContextConfigContainer.cpp:75-182 | a loadable file yields exactly its contexts by guid; anything else the default context |
| Sai.RunIsConsistent | lib/Sai.cpp:52-261 | over every run of attributes, calls, initializations and their ends, with exceptions caught, each context is one of the file and keeps what exceptions do not break, and its whole transport invariant while nothing has thrown |
| Sai.ZmqContextsDoNotCollide | lib/ContextConfig.cpp:96-142 | in every reachable state two contexts on ZMQ share a request or notification endpoint only if the file left `zmq_enable` out of both |
| Sai.MeetExactly | lib/ContextConfig.cpp:96-142 | some run puts two contexts on ZMQ at one address of any purpose exactly when neither is locked to Redis and either their endpoints are crossed or both left `zmq_enable` out and share an endpoint |
| Sai.MeetBoundOnceExactly | lib/ZeroMQChannel.cpp:60-76 | the same over the runs in which no two contexts on ZMQ ever have one notification endpoint bound: contexts that share it then never meet, and all others meet as before |
| Sai.CrossedEndpointsMeet | lib/ContextConfig.cpp:44-94 | a file that passes the load-time rule and whose two contexts, both locked to ZMQ, meet |
| Sai.IdsRouteHome | lib/Sai.cpp:19-26 | every id a context allocates, of any type and index, is dispatched to that context |
| Sai.SwitchIdsRouteHome | lib/Sai.cpp:842-853 | so is every switch id; the null id goes to context 0 |
| Sai.ContextIsSticky | lib/Sai.cpp:122-154 | a switch created in a context, and objects created on it, stay in that context |
| Sai.SwitchCreateNeedsContextZero | lib/Sai.cpp:122-154 | a switch create finds its context exactly when context 0 is loaded and, if the last attribute names a context, that one is too |
| Sai.CreateSelects | lib/Sai.cpp:122-154 | which context a create uses and which attributes it passes on: the context attribute is taken off, and a switch create without it goes to context 0 with all attributes |
| Sai.CallsReachTheirContext | lib/Sai.cpp:19-26 | a call is one call on the transport of the context that its id names, with that result and no effect on others; it fails without effect if that context is not loaded |
| Sai.IdsAreServedAtHome | lib/Sai.cpp:19-26 | in every reachable initialized state calls on all ids and switch ids of a context run on that context alone |
| Sai.AttributesReachTheirTargets | lib/Sai.cpp:226-246 | an attribute acts on all its targets and on no other context, and succeeds exactly when it succeeds on each |
| Sai.AttributesStopAtAnException | lib/Sai.cpp:226-246 | when a target throws, exactly the targets up to the first such one, by guid, have been set |
| Sai.ApiBeginsAndEnds | lib/Sai.cpp:52-120 | initialization succeeds exactly when all guids fit and all locked channels open, and creates every context anew; uninitialization forgets all |
| Sai.SaiApi.ApiInitialize | lib/Sai.cpp:52-100 | creates one context per loaded configuration in any order; after one that throws the contexts before it stay and the next initialization starts from them |
| Sai.SaiApi.SetRedisAttribute | lib/Sai.cpp:195-248 | fails while uninitialized and otherwise broadcasts |
| Sai.SaiApi.Perform | lib/Sai.cpp:19-26 | a call reaches the transport of the context its id names, and fails if that context is not loaded |
| Sai.SaiApi.SetOnContexts | lib/Sai.cpp:226-246 | the loop sets the targets in the order of their guids up to the first that throws, and reports success exactly when all succeed |
| AttributeText.RoundTripExactly | meta/Globals.cpp:72-90 | a list survives join and split exactly when it is not empty and no separator hides in a field or value |
| AttributeText.ItemsReadExactly | lib/ServerSai.cpp:1128-1138 | an item is cut at its first equals sign; one without it is field and value at once |
| AttributeText.EitherSplitAgrees | lib/ServerSai.cpp:1122-1144 | splitting with or without a last empty piece makes no difference on printed lists |
| AttributeText.DeliveredExactly | meta/SaiAttributeList.cpp:7-44 | a list, the empty one included, reaches the other side unchanged exactly when it has no separator and no field NULL |
| AttributeText.LoadedThrowsExactly | meta/SaiAttributeList.cpp:7-44 | reading entries throws exactly when one that is not named NULL cannot be read |
| AttributeText.LoadedSplits | meta/SaiAttributeList.cpp:7-44 | reading goes entry by entry, in order |
| AttributeText.LoadedSingle | meta/SaiAttributeList.cpp:7-44 | an entry named NULL is dropped and any other one kept |
| AttributeText.JoinFieldValues | meta/Globals.cpp:72-90 | the stream loop prints the joined text |
| AttributeText.SplitFieldValues | lib/ServerSai.cpp:1122-1144 | the loop over the pieces reads the parsed list |
| AttributeText.SaiAttributeList.Load | meta/SaiAttributeList.cpp:7-44 | keeps the readable attributes that are not NULL in order, or throws on one that cannot be read |
| BulkCreate.ListsTravelExactly | lib/ServerSai.cpp:1112-1150 | the server reads all lists, in order and unchanged, exactly when each is deliverable |
| BulkCreate.RemoteIsLocal | lib/ClientSai.cpp:1319-1424 | for 1 to 2^31-1 objects, any error mode and any server-side result the server is asked with the caller's lists and switch, and every status and every id of a successful object comes back at its position, null elsewhere |
| BulkCreate.ModeTravelsExactly | lib/ServerSai.cpp:1167-1230 | the remote call equals the local one with the caller's own error mode, for every implementation behind the server, exactly when that mode is IGNORE_ERROR |
| BulkCreate.CountsOutOfRange | lib/ClientSai.cpp:1579-1629 | from 2^31 objects on the call throws; without objects it fails |
| BulkCreate.ServerAnswersExactly | lib/ServerSai.cpp:1093-1165 | the server answers exactly requests of a known type with at least one value, all with readable attributes and ids |
| BulkCreate.OnlyOidPairsAreRead | lib/ClientSai.cpp:1579-1629 | ids are read from the pairs named "oid" alone, and the reading throws exactly for one that holds no id |
| BulkCreate.OtherRepliesThrow | lib/ClientSai.cpp:1579-1629 | without a reply, or with one that does not hold a status and an id for each object, the caller throws |
| BulkCreate.RequestKeyReads | lib/ClientSai.cpp:1319-1424 | the key of a request names the type and the number of objects |
| BulkCreate.ReceivedIsLocal | lib/ServerSai.cpp:1896-1942 | statuses followed by ids are taken apart again without loss |
| BulkCreate.ServerSai.ProcessBulkQuadEvent | lib/ServerSai.cpp:1093-1165 | sends exactly one reply, the specified one, or throws and sends none |
| BulkCreate.ServerSai.ProcessBulkOid | lib/ServerSai.cpp:1167-1248 | takes the first id as the switch and replies with what the implementation answered |
| BulkCreate.ServerSai.SendBulkApiResponse | lib/ServerSai.cpp:1896-1942 | sends all statuses, then all ids, under the call's status |
| BulkCreate.ClientSai.WaitForBulkResponse | lib/ClientSai.cpp:1579-1629 | checks the count in 32 bits, fills the statuses and remembers the ids, or throws |
| BulkCreate.ClientSai.BulkCreate | lib/ClientSai.cpp:1319-1424 | the whole call leaves in the caller's arrays what the remote specification says |
| EnumList.ScanRecoversExactly | lib/ClientSai.cpp:914-942 | scanning a printed list for k numbers gives its first k, negative ones included, and throws exactly if there are fewer |
| EnumList.EnumQueryRoundTrip | lib/ServerSai.cpp:2035-2050 | the client receives the server's status and exactly its numbers, for every list of up to 2^31-1 |
| EnumList.CountDecides | lib/ClientSai.cpp:892-953 | the reported count decides how many numbers are read and throws if it is negative or too large; a reply that is no pair is a failure |
| EnumList.ProcessAttrEnumValuesCapabilityQuery | lib/ServerSai.cpp:2029-2056 | the reply holds the printed numbers and their count |
| EnumList.ScanInto | lib/ClientSai.cpp:921-942 | the position loop writes the scanned numbers to the front of the caller's list and nothing behind them |
| EnumList.WaitForQueryAttributeEnumValuesCapabilityResponse | lib/ClientSai.cpp:892-953 | reads the reply as specified into the caller's list |
| Numerals.StoiOfToString | lib/ClientSai.cpp:915-927 | `stoi` reads back every printed `int` and throws for every other number |
| Numerals.StoiReadsALeadingNumber | lib/ClientSai.cpp:915-927 | `stoi` skips white space and a plus sign and does not look behind the number |
| Numerals.OidRoundTrip | meta/SaiSerialize.cpp:3906-3927 | every object id survives printing and parsing |
| Numerals.PrintedText | meta/SaiSerialize.cpp:3906-3927 | numbers print in decimal, ids in lower-case hexadecimal behind `oid:0x` |
| Numerals.MalformedIdsThrow | meta/SaiSerialize.cpp:3906-3927 | text without the prefix, without digits or with another character is no id |
| RecordLine.RecordRoundTripExactly | lib/Recorder.cpp:460-478 | a recorded bulk create is read back, type, ids and attributes in order, exactly when it is clean: no separators where they hurt, a type, and attribute text for every object |
| RecordLine.BulkCreateReplays | lib/RedisRemoteSaiInterface.cpp:2238-2256 | a bulk create that was padded, recorded, read and loaded has its ids and lists again, empty lists included |
| RecordLine.Recorder.RecordBulkGenericCreate | lib/Recorder.cpp:460-478 | appends one line, with every entry behind a double bar, to an enabled and open record file |
| RecordLine.EntriesLineIsLine | lib/RedisRemoteSaiInterface.cpp:2238-2256 | for ids and joined attribute lists the recorder's line is the line of the record |
| RecordLine.Recorder.RecordLine | lib/Recorder.cpp:167-183 | writes only while enabled and open |
| RecordLine.Tokenize | lib/tests.cpp:709-734 | the erasing loop ends and yields the pieces between leftmost separators |
| RecordLine.ReadBulkLine | lib/tests.cpp:922-970 | the reader's loops compute the parsed record, or throw on a short first field |
| MetaKeys.EqualityIsNormalForm | meta/MetaKeyHasher.cpp:11-445 | on handled keys equality never throws and ignores exactly the bytes outside the address family |
| MetaKeys.EqualityComparesUsedBytes | meta/MetaKeyHasher.cpp:11-445 | two handled keys are equal exactly when zeroing the bytes outside their IPv4 addresses makes one key of them: every other field of every type counts |
| MetaKeys.HandledExactly | meta/MetaKeyHasher.cpp:11-445 | handled are the keys of handled types all of whose addresses are IPv4 or IPv6 |
| MetaKeys.EqualityIsEquivalence | meta/MetaKeyHasher.cpp:369-445 | equality of handled keys is reflexive, symmetric and transitive |
| MetaKeys.ReflexiveExactly | meta/MetaKeyHasher.cpp:369-445 | a key equals itself exactly when its type is handled and its families known; otherwise comparing throws |
| MetaKeys.SymmetricExactly | meta/MetaKeyHasher.cpp:72-212 | equality is symmetric except exactly for two routes, neighbors or multicast entries of which one has an unknown family |
| MetaKeys.EqualKeysHashEqually | meta/MetaKeyHasher.cpp:449-894 | equal handled keys hash equally, whatever `hash_combine` computes |
| MetaKeys.HashThrowsExactly | meta/MetaKeyHasher.cpp:449-894 | the hash throws exactly for keys that are not handled, except multicast keys with a known group family |
| MetaKeys.PlainHashesCollideExactly | meta/MetaKeyHasher.cpp:449-560 | object ids, labels, MAC and IPv4 keys collide exactly on equal id, label, last four bytes or address |
| MetaKeys.UnknownFamiliesBreakTheLaws | meta/MetaKeyHasher.cpp:72-166 | concrete keys with unknown families for which the laws fail |
| HashTables.UnorderedMap.Find | meta/SaiObjectCollection.cpp:14-22 | searching one bucket finds the entry of a canonical key exactly when the map has it |
| HashTables.UnorderedMap.Put | meta/SaiObjectCollection.cpp:37 | bucket insertion is map update, also when it rehashes |
| HashTables.UnorderedMap.Rehash | meta/SaiObjectCollection.cpp:37 | moving all entries to another number of buckets changes nothing |
| HashTables.UnorderedMap.Erase | meta/SaiObjectCollection.cpp:51 | bucket erasure is map removal |
| ObjectCollection.HasherIsLawful | meta/MetaKeyHasher.cpp:369-445 | the hasher and comparison satisfy what the hash table needs, on handled keys |
| ObjectCollection.SaiObjectCollection.CreateObject | meta/SaiObjectCollection.cpp:24-38 | adds an object under its normal key, or throws if one is there or the key is not handled |
| ObjectCollection.SaiObjectCollection.RemoveObject | meta/SaiObjectCollection.cpp:40-52 | removes the object of the normal key, or throws if there is none or the key is not handled |
| ObjectCollection.SaiObjectCollection.SetObjectAttr | meta/SaiObjectCollection.cpp:54-68 | sets one attribute of one object, or throws if there is none or the key is not handled |
| ObjectCollection.SaiObjectCollection.GetObjectAttr | meta/SaiObjectCollection.cpp:70-93 | returns the attribute, null for an unknown object or attribute, and throws for a key that is not handled |
| ObjectCollection.SaiObjectCollection.GetObject | meta/SaiObjectCollection.cpp:111-123 | returns the object of the normal key, or throws |
| ObjectCollection.RunOperations | meta/SaiObjectCollection.cpp:7-93 | after any run the collection is the plain map on normal keys, and the same operations have thrown |
| AttrKeys.LastValueCounts | meta/AttrKeyMap.cpp:71-138 | the key is built from the last value of every key attribute in the order of ids; it throws exactly for missing metadata or an unprintable key attribute |
| AttrKeys.KeyThrowsExactly | meta/AttrKeyMap.cpp:55-155 | no key exactly for the null switch, for an attribute without metadata and for a key attribute of another type |
| AttrKeys.OneAttributeKey | meta/AttrKeyMap.cpp:83-152 | the text of a key with one attribute, for each of the six types |
| AttrKeys.OrderDoesNotMatter | meta/AttrKeyMap.cpp:69-138 | reordering a list with distinct ids changes neither the key nor whether it throws |
| AttrKeys.CollideExactly | meta/AttrKeyMap.cpp:55-155 | two keys are equal exactly when the switch is the same and both lists give the same key attributes, each with the same last value in the union member that its type names |
| AttrKeys.AttrKeyMap.ConstructKeyText | meta/AttrKeyMap.cpp:55-155 | the nested loops over attributes and numbers build the specified key, or throw |
| AttrKeys.AttrKeyMap.AppendList | meta/AttrKeyMap.cpp:98-108 | the inner loop puts commas between the numbers and nowhere else |
| AttrKeys.AttrKeyMap.AttrKeyExists | meta/AttrKeyMap.cpp:39-53 | true exactly when some object has the key |
| AttrKeys.AttrKeyMap.EraseMetaKey | meta/AttrKeyMap.cpp:24-37 | forgets that object's key and no other |
| OidRefs.DecrementListExactly | meta/OidRefCounter.cpp:86-95 | decrementing a list succeeds exactly when every element is known and counted often enough |
| OidRefs.DecrementUndoesIncrement | meta/OidRefCounter.cpp:49-95 | decrementing an incremented list, in any order, restores the table, with duplicates and null ids |
| OidRefs.CountsBalance | meta/OidRefCounter.cpp:28-134 | over every run without an exception each count is increments minus decrements since its insert, and not negative |
| OidRefs.TableHoldsTheKnown | meta/OidRefCounter.cpp:97-197 | over such a run the table holds exactly the ids that were inserted and neither removed nor cleared since |
| OidRefs.OperationsSucceedExactly | meta/OidRefCounter.cpp:28-197 | after such a run each operation ends well exactly under its condition on known ids and balances, lists included |
| OidRefs.FailuresLeaveTheTable | meta/OidRefCounter.cpp:28-197 | an operation that throws changes nothing but the count that a decrement has written |
| OidRefs.ListsStopAtAFailure | meta/OidRefCounter.cpp:49-95 | a list operation that throws has done its elements up to the first one that throws |
| OidRefs.RemoveOnlyAtZero | meta/OidRefCounter.cpp:112-134 | after such a run removal succeeds exactly for known ids with balance zero |
| OidRefs.ThrowingDecrementLosesTheBalance | meta/OidRefCounter.cpp:76-81 | a decrement that throws leaves -1, and the id can then be removed even after a new reference |
| OidRefs.OidRefCounter.ObjectReferenceIncrement | meta/OidRefCounter.cpp:28-47 | counts a known id, ignores null, throws for an unknown one |
| OidRefs.OidRefCounter.ObjectReferenceDecrement | meta/OidRefCounter.cpp:60-84 | writes the count before it checks it |
| OidRefs.OidRefCounter.ObjectReferenceDecrementList | meta/OidRefCounter.cpp:86-95 | stops at the first element that throws and keeps what was done |
| OidRefs.OidRefCounter.ObjectReferenceRemove | meta/OidRefCounter.cpp:112-134 | removes a known id whose count is not positive, or throws |
| SwitchLifecycle.GetHardwareInfo | meta/Globals.cpp:20-70 | the longest prefix of the given list within its count and 255 characters that holds no null character; empty without a list |
| SwitchLifecycle.SuccessHoldsTheSwitch | lib/RedisRemoteSaiInterface.cpp:147-261 | a create or connect that succeeds returns the configured switch id and leaves that switch held, its index allocated and all else unchanged |
| SwitchLifecycle.FailureHoldsNothing | lib/RedisRemoteSaiInterface.cpp:147-261 | one that does not succeed changes no held switch; which status it returns, and what becomes of the index |
| SwitchLifecycle.RemovalTakesOneSwitch | lib/RedisRemoteSaiInterface.cpp:263-284 | a remove that succeeds takes away exactly that switch and its index; any other remove no held switch; INIT_VIEW everything |
| SwitchLifecycle.ThrowsExactly | lib/SwitchContainer.cpp:8-46 | exactly when a step throws, remote exceptions included; the hardware info check never fires, and removing a held switch throws only if the remote call does |
| SwitchLifecycle.StepKeepsInvExactly | lib/RedisRemoteSaiInterface.cpp:147-284 | a step that does not throw keeps allocated indexes and held switches in agreement, except exactly for a failed create of a held switch |
| SwitchLifecycle.SwitchesAgree | lib/RedisRemoteSaiInterface.cpp:147-284 | over every run without such a create the allocated indexes are those of the held switches, hardware infos differ, and any held switch can be removed |
| SwitchLifecycle.FailedRecreateStrandsTheSwitch | lib/RedisRemoteSaiInterface.cpp:254-258 | the excepted step leaves a held switch whose removal throws |
| SwitchLifecycle.RemovableExactly | lib/RedisRemoteSaiInterface.cpp:147-284 | over every history with exceptions caught, a held switch can be removed exactly when, since its index was last allocated, no create for it failed remotely and no other switch id with its index was removed |
| SwitchLifecycle.StrayRemovalStrandsTheSwitch | lib/RedisRemoteSaiInterface.cpp:273-281 | the remote removal of any other switch id with its index leaves a held switch whose removal throws |
| SwitchLifecycle.SwitchContainer.Insert | lib/SwitchContainer.cpp:8-30 | throws exactly for a held id or a held hardware info |
| SwitchLifecycle.SwitchContainer.GetSwitchByHardwareInfo | lib/SwitchContainer.cpp:84-96 | finds a switch with the hardware info if there is one |
| SwitchLifecycle.RedisSwitches.CreateSwitch | lib/RedisRemoteSaiInterface.cpp:147-261 | create and connect leave both objects, the id and the status as specified |
| SwitchLifecycle.RedisSwitches.RemoveSwitch | lib/RedisRemoteSaiInterface.cpp:263-284 | remove leaves both objects as specified |
| SwitchLifecycle.RedisSwitches.ClearLocalState | lib/RedisRemoteSaiInterface.cpp:2499-2514 | INIT_VIEW replaces both objects by empty ones |
| SwitchLifecycle.RedisSwitches.RunEvents | lib/RedisRemoteSaiInterface.cpp:147-284 | on any valid switch configuration, a run without exception and recreation leaves the two objects in agreement and every held switch removable |
| SwitchLifecycle.RedisSwitches.RunThrough | lib/RedisRemoteSaiInterface.cpp:147-284 | on any valid switch configuration, any history with exceptions caught leaves the objects as specified, with that condition on the removal of each held switch |

## Left out

- Meta, and with it the agreement of reference counts with object attributes: calls pass through it unchanged here.
- SaiSerialize beyond object ids: statuses, types and attributes are identified with their printed names, and which texts can be read back is a parameter.
- swss, libzmq and Redis: INCR and INCRBY are atomic, JSON keeps pairs in order, `swss::tokenize` is a plain split, a REP or REQ socket alternates receive and send, and one select event leads to one `readData`.
- Late responses in `RedisChannel::wait`, whose outcome depends on what the queue still holds; a Redis wait returns a status chosen by the environment.
- Threads starting and stopping, destructors, `volatile` memory order, and handlers of the server thread that throw: actions are atomic and interleaved.
- `ZeroMQSelectableChannel` spin loops are turns of the scheduler: a turn in the wait does nothing until the flag is up.
- Single create, remove, set and get over the client/server channel, which carry their pairs unjoined.
- Bulk operations other than create, bulk create of entries, and the bulk responses of `RedisRemoteSaiInterface`, which align statuses by position as the client does.
- The stats and attribute capability replies, notifications, `ClientServerSai`, `DummySaiInterface`, `SkipRecordAttrContainer`, `PortRelatedSet` and the per-entry forwarding macros.
- JSON parsing of the context file, file handling and rotation in `Recorder`, and the floating-point helpers in `Utils`.
- The SAI headers: the switch type, the start of the extension range, the mode numbers and the hardware info limit are their values; of the ends of the two object type ranges only the bounds that the source asserts are used.
- BulkCreate.ClientSai.BulkCreate: says nothing about the caller's arrays after an exception, because the source leaves them partly written; entry types take another path.
- BulkCreate.ClientSai.WaitForBulkResponse: models the create API alone.
- BulkCreate.ServerSai.ProcessBulkQuadEvent: models bulk create of object id types; entries, remove and set take other paths.
- BulkCreate.ServerSai.ProcessBulkOid: models the create branch.
- BulkCreate.ServerSai.SendBulkApiResponse: models the create form of the reply.
- AttributeText.SaiAttributeList.Load: reading an attribute is a parameter that tells which printed ones can be read.
- RecordLine.ReadBulkLine: reading types and attribute values is left to the loader.
- PollChannel.ZeroMQSelectableChannel.ReadData: failed and truncated receives are left out; what remains is the rule that a REP socket receives only when it owes no reply.
- PollChannel.ZeroMQSelectableChannel.Pop: JSON reading, and with it the exception for an empty list of pairs, is left out.
- PollChannel.ZeroMQSelectableChannel.ServerThreadFunction: handlers that throw before they reply, and the early return of an uninitialized server, are left out.
- ReqChannel.ZeroMQChannel.Wait: the content of a reply is reduced to its command and status. The narrowing of the timeout to `int` (lib/ZeroMQChannel.cpp:279) is left out: from 2^31 ms on it can become negative, and the poll then waits for ever.
- Transport.ZmqCallsAlternate: calls are of two kinds, and exceptions over the content of a reply are left out.
- Transport.RedisRemoteSaiInterface.SetRedisExtensionAttribute: the five attributes that touch the transport.
- Transport.RedisRemoteSaiInterface.Perform: serialization, recording and the values of a response are left out.
- ContextConfigs.ContextConfigContainer.LoadFromFile: JSON reading yields the items or nothing.
- Sai.RunIsConsistent: the configuration file stays the same over a run; whether a ZMQ channel can be opened is chosen by the environment.
- Transport.StuckHistories: a reconnect that fails after a timeout (lib/ZeroMQChannel.cpp:291-300) leaves a fresh socket without a peer, whose next send does not end; that socket counts as able to send.
- Sai.MeetExactly: whether an endpoint can be opened is chosen by the environment, even while another context has bound it.
- ObjectCollection.RunOperations: multicast keys with a known group family and an unknown source family are outside it: they have a hash, and what happens to them depends on the keys that share their bucket.
- ObjectCollection.SaiObjectCollection.CreateObject: leaves out the same multicast keys; for a key that is not handled `find` is taken to call the hasher, which some standard libraries skip on an empty table.
- ObjectCollection.SaiObjectCollection.RemoveObject: leaves out the same multicast keys; for a key that is not handled `find` is taken to call the hasher, which some standard libraries skip on an empty table.
- ObjectCollection.SaiObjectCollection.SetObjectAttr: leaves out the same multicast keys; for a key that is not handled `find` is taken to call the hasher, which some standard libraries skip on an empty table.
- ObjectCollection.SaiObjectCollection.GetObjectAttr: leaves out the same multicast keys; for a key that is not handled `find` is taken to call the hasher, which some standard libraries skip on an empty table.
- ObjectCollection.SaiObjectCollection.GetObject: leaves out the same multicast keys; for a key that is not handled `find` is taken to call the hasher, which some standard libraries skip on an empty table.
- OidRefs.CountsBalance: an increment at the largest `int32` has no defined result and counts as a failure.
- SwitchLifecycle.SwitchesAgree: the table dump and the remote outcome of every step are chosen by the environment.
