# OpenDDW in Dafny

OpenDDW is a wrapper around OpenDDS with state of its own. This project models that state and proves what it promises:

- **Entity registry** (`Dds`, `RegistrySpec`, `Groups`, `Manager` and the other `Registry*` modules). `DDSManager` keeps one
  `TopicGroup` per topic; the maps in the groups must mirror the live entities of the DDS participant. The participant is
  a graph of entities with the creation rules and deletion preconditions of OMG DDS 1.4 (sections 2.2.2.2.1, 2.2.2.4.1 and
  2.2.2.5.2). Every creation, every `set_qos`, every filter deletion and every `delete_contained_entities` may be refused:
  the refusals are parameters, so each result covers all error paths.
  `RegistrySpec` says what each operation does to the whole state as a value; `Groups` and `Manager` hold the objects updated
  in place, with the source's branches and loops, each method proved to take the abstract state where `RegistrySpec` says and
  to keep the class invariant `Valid()`; the other modules prove theorems about any run of the operations. What a run
  stores, what lives in the participant and which functions an emitter calls are each told a second time, by recursion on
  the operations without the registry's own steps (`RegistrySettings`, `RegistryLive`, `RegistryListening`).
- **Emitters** (`Emitters`, `Sessions`). The thread-handle state machine, the delivery loop, and whole sessions of
  registrations, changes of mode and reads.
- **Names**. The names the library generates (`topic_reader_N`, `config-D-N`, `rtps_udp-D-N`) and how they are read back.
- **Clean-up** (`RegistryCleanup`, `CleanupTheorems`). The concurrent unregister tasks of one manager, under every schedule.
- **Participant monitor** (`Guids`, `Monitor`, `MonitorMerge`, `MonitorReplay`, `MonitorLog`). Two listeners that merge two sample
  streams into one map and report changes.
- **IDL dependencies** (`IdlDependencies`). The level-by-level search of `find_idl_dependencies`.
- **Transport set-up** (`Transport`). The part of `joinDomain` that numbers configs and transports and computes the port,
  over any sequence of managers joining and being destroyed.
- **Array sets and polling** (`DdsArray`, `Polling`).

## Where the code differs from its comments or from what one would expect

- `replaceFilter` deletes the reader at src/dds_manager.cpp:1000-1014 and sets the handle to null at 1009; lines 1050-1051
  then call through that null handle, on every run that gets there. The theorems about `replaceFilter` therefore describe the
  code without those two lines: the model has the first teardown only.
- `emplace` at src/dds_manager.cpp:1127 never replaces the listener, whatever the comment at 1122 says: the key is known to be
  there. The new reader gets the old listener (`RegistryReplace.ReplaceFilterDelivers`).
- A failed `create_datawriter` leaves the publisher set, and `createPublisher` then reports success without a writer
  (`RegistryTheorems.PublisherWithoutWriterIff` says exactly when).
- When `replaceFilter` fails after deleting the old reader, the deleted handle stays in `readers`
  (`RegistryReplace.ReplaceFilterGoesStaleIff`; in a whole run nothing else makes a reader stale,
  `RegistryForever.ReaderGoesStaleIff`), and nothing but unregistering the topic repairs it (`RegistryForever.StaleForever`).
  With such a handle the destructor's `delete_datareader` is refused and reported (`RegistryTheorems.UnregisterIsCleanIff`).
- A filtered topic can stay behind with nothing reading from it, in exactly three ways (`RegistryOrphans.ApplyOrphansIff`, over
  whole runs `RegistryOrphans.RunOrphansIff`): `createSubscriber` made it and was refused the reader; `replaceFilter` made it and
  was refused the reader; or `replaceFilter` was refused the deletion of the old one. It stays until the topic is unregistered
  (`RegistryOrphans.OrphanForever`) and blocks its name (`RegistryOrphans.FailedSubscribeBlocksName`).
- A `replaceFilter` that fails stops a listening emitter and leaves it without a reader. `addCallback` then still returns true and
  nothing listens, until a later `replaceFilter` succeeds (`RegistryListening.EarFollowsCalls`, `RegistryListening.AddCallbackListensIff`).
- `replaceFilter` restarts every emitter of the reader, also one that was only queuing messages, and creates the reader with the stored
  QoS, so a rate limit set by `setMaxDataRate` is lost (`RegistryReplace.ReplaceFilterDelivers`).
- `SetWriterListenerHandler` dereferences a writer listener in every group: it crashes iff some topic has no writer
  (`RegistryTheorems.WriterHandlerCrashesIff`), which joining and registering a topic is enough to reach
  (`RegistryTheorems.WriterHandlerCanCrash`). A run of operations ends there.
- Destroying a group while samples of its readers are on loan leaves entities alive that refer to freed listeners, and only
  then (`RegistryTheorems.UnregisterDanglesIffOnLoan`). Runs therefore wait for loans before they unregister a topic.
- `joinDomain` announces that it binds an existing config and binds nothing: the participant gets no config iff the
  configuration file defines the one of the next number. It uses the result of `create_inst` unchecked (lines 419-434) and so
  crashes iff a transport is to be copied and the copy is refused, as its name is in use or for another reason, or there are two
  to copy under the same name (`Transport.JoinCreatesIff`).
- `setMaxDataRate` computes nanoseconds in 32 bits: the separation asked for is the one meant iff the rate is at most 4294
  (`RegistryTheorems.SeparationIsMeantIff`, which also says where the signed product and the nanosecond range are exceeded).
- `m_transportMapMutex` belongs to one manager while the counters are shared by all; joins of different managers are
  modelled as serialized.
- The monitor calls the user back after releasing its mutex, so callbacks may come in the wrong order;
  `MonitorReplay.ReplayWorksIffLastCallsAgree` says exactly which orders still rebuild the map, and
  `MonitorReplay.CallbacksOutOfOrder` has one that does not. Samples that say a participant is gone need not commute with the
  other stream: `MonitorMerge.MergeConfluentIff` says exactly when all interleavings agree, and
  `MonitorMerge.InvalidSamplesDoNotCommute` has a pair that does not.

## Model

| member | source | states |
|---|---|---|
| RegistryRuns.RunInv | src/dds_manager.cpp:618-1176 | The registry invariant (groups mirror the participant, no leak, no sharing, listeners alive and with the current handler, emitters consistent) survives every run of operations, with every refusal possible |
| RegistryRuns.ApplyInv | src/dds_manager.h:506-594 | One operation of any kind keeps the registry invariant |
| RegistryTheorems.RegistryMirrorsParticipant | src/dds_manager.h:506-558 | After any run each live entity is recorded in exactly one group, and every recorded handle is live unless it is a reader's |
| RegistryLive.LiveFollowsRequests | src/dds_manager.cpp:618-1296 | After any run a topic's live publisher, subscriber, writer and each reader have the QoS that was stored when they were made, partitions included, or what they were last set to if they did not refuse (a rate limit included), and a reader passes what the filter it was last given passes; what was not made, was lost or unregistered is not there |
| RegistrySettings.SettingsFollowRequests | src/dds_manager.cpp:489-614 | After any run the stored reader, writer, publisher and subscriber QoS of a topic is what the last setter or the first accepted preset since it was unregistered asked for, or the default; each later addPartition has appended its name to both lists |
| RegistrySettings.WideFollowsRequests | src/dds_manager.cpp:100-116 | After any run the manager has joined iff a call joined, and the two handlers are the last ones set |
| RegistryTheorems.UnregisterRemovesEverythingIffNoLoans | src/dds_manager.cpp:1623-1721 | Unregistering removes all of the group's entities iff none of its readers' samples is on loan, and touches nothing else |
| RegistryTheorems.UnregisterIsCleanIff | src/dds_manager.cpp:1623-1721 | Every delete in the destructor returns OK iff nothing is on loan and no reader handle is stale |
| RegistryTheorems.UnregisterAllEmptiesParticipant | src/dds_manager.cpp:162-192 | Unregistering every topic, in any order, leaves a participant without entities |
| RegistryTeardown.TeardownResult | src/dds_manager.cpp:1623-1721 | Exactly which entities the teardown leaves, for any loans and any stale readers, and that what is left is unchanged |
| RegistryTheorems.ListenersOutliveEntities | src/dds_manager.cpp:677-740 | After any run no live topic, reader or writer refers to a freed listener, and every reader's and writer's listener has the current handler |
| RegistryTheorems.UnregisterDanglesIffOnLoan | src/dds_manager.cpp:1623-1721 | Unregistering leaves a live entity with a freed listener iff a sample of the group is on loan |
| RegistryTheorems.EmittersAreConsistent | src/dds_callback.h:140-156 | After any run an emitter is running iff its thread handle is joinable, its reader is nil or the recorded one, and the recorded one while it listens |
| RegistryListening.EarFollowsCalls | src/dds_callback.h:140-217 | After any run an emitter is in the state that its own addCallback and replaceFilter calls since its topic was last unregistered put it in; it is deaf iff a replaceFilter failed while it listened and none has succeeded since |
| RegistryListening.AddCallbackListensIff | src/dds_manager.hpp:548-597 | addCallback returns true and leaves the emitter listening iff the reader is recorded and the emitter listened already, or is new or idle, is to be started, and its thread reaches its loop |
| RegistryListening.EmitterKeepsFunctions | src/dds_manager.hpp:548-597 | After any run an emitter has, for each message type, the functions that the addCallback calls which found its reader gave it since its topic was unregistered, in order, and the mode of the last of them; replaceFilter and all other operations leave both alone |
| RegistryTheorems.PublisherWithoutWriterIff | src/dds_manager.cpp:748-821 | createPublisher returns true for a group without a writer iff the publisher existed already without one |
| RegistryTheorems.CreateSubscriberSucceedsIff | src/dds_manager.cpp:618-744 | createSubscriber succeeds iff topic and reader name are right, the service creates what is asked, and the filter name is free |
| RegistrySettings.RegisterTopicSucceedsIff | src/dds_manager.hpp:43-202 | registerTopic throws iff nobody joined; it returns true iff the topic is there already, or is created now and the preset is one there is or another was applied before |
| RegistrySettings.RegisterQosSucceedsIff | src/dds_manager.cpp:489-552 | registerQos returns true iff there is a group and the preset is one there is or another was applied before |
| RegistrySettings.CreatePublisherSucceedsIff | src/dds_manager.cpp:748-821 | createPublisher succeeds iff the topic is registered and has a publisher already, or the service creates the publisher and then the writer |
| RegistrySettings.OtherCallsSucceedIff | src/dds_manager.cpp:556-614 | When addPartition, setMaxDataRate, addCallback and unregisterTopic succeed, that they change nothing when they fail, and that unregisterTopic stops every emitter of the group |
| RegistryLive.TopicDelivers | src/dds_manager.hpp:169-196 | registerTopic makes one topic of that name with a new listener that has no handler, or changes nothing |
| RegistryLive.PublisherDelivers | src/dds_manager.cpp:769-813 | createPublisher makes a publisher with exactly the stored QoS and partitions, and a writer of the topic on it with the stored QoS and a new listener that has the current handler, or what the service allows of it |
| RegistryLive.SubscriberDelivers | src/dds_manager.cpp:655-740 | createSubscriber makes a missing subscriber with exactly the stored QoS and partitions; a success leaves a new reader on it with the stored QoS, minimum separation included, a listener of its own with the current handler, reading from the topic or from a filtered topic topic_reader_0 with the filter asked for |
| RegistryTheorems.WriterHandlerCrashesIff | src/dds_manager.cpp:110-116 | SetWriterListenerHandler dereferences null iff some registered topic has no writer |
| RegistryTheorems.GetReaderFindsIff | src/dds_manager.cpp:1322-1350 | getReader finds a reader iff the group records one of that name; it is that group's live reader with that name's listener and its own topic or filter, or a deleted one; two different names never find the same reader |
| RegistryTheorems.SeparationIsMeantIff | src/dds_manager.cpp:1252-1296 | The minimum separation is a million times the rate modulo 2^32: the one meant iff the rate is at most 4294; signed overflow starts at 2148, leaving the nanosecond range at 1000 |
| RegistryReplace.FilterHasOneReader | src/dds_manager.cpp:1021-1046 | A reader's filtered topic is recorded under its own name in its own group, and no other reader uses it |
| RegistryReplace.ReplaceFilterSucceedsIff | src/dds_manager.cpp:929-1176 | replaceFilter succeeds iff the reader can be deleted, the service creates what is asked, and the next filter name is free |
| RegistryReplace.ReplaceFilterDelivers | src/dds_manager.cpp:1053-1172 | A success leaves a new live reader with the old listener and the stored QoS on the topic or on the next filtered topic, which has the filter asked for, the old one gone, and the emitter running on the new one |
| RegistryReplace.ReplaceFilterGoesStaleIff | src/dds_manager.cpp:1000-1147 | The recorded reader handle becomes stale iff the old reader can be deleted and then the service refuses the reader or the filter, or the next filter name is taken |
| RegistryReplace.StaleCannotBeRepaired | src/dds_manager.cpp:929-1014 | With a stale reader neither replaceFilter nor createSubscriber of that name can succeed |
| RegistryForever.StaleForever | src/dds_manager.cpp:929-1176 | A stale reader stays stale through every run that does not unregister its topic |
| RegistryForever.ReaderGoesStaleIff | src/dds_manager.cpp:929-1176 | In any run that does not unregister its topic a live reader becomes stale iff a replaceFilter on it fails half way; else it ends live, and its filter's counter has gone up by one per filtered replacement, back to 0 per unfiltered one, and changed with nothing else |
| RegistryOrphans.SubscribeLeavesOrphanIff | src/dds_manager.cpp:681-740 | After createSubscriber a filtered topic is unread iff it was before, or a filter of that name was asked for, everything up to the filtered topic worked, and the reader was refused |
| RegistryOrphans.RefilterLeavesOrphanIff | src/dds_manager.cpp:1017-1147 | After replaceFilter a filtered topic is unread iff it was before, or it is the old one and its deletion was refused, or it is the new one and the reader was refused |
| RegistryOrphans.RunOrphansIff | src/dds_manager.cpp:618-1176 | After any run a filtered topic is recorded and unread iff it was before or one of these calls left it so, with no unregistering of its topic since |
| RegistryOrphans.OrphanForever | src/dds_manager.cpp:684-707 | A recorded filtered topic nobody reads from stays so through every run that does not unregister its topic |
| RegistryOrphans.FailedSubscribeBlocksName | src/dds_manager.cpp:681-740 | After a createSubscriber refused at the reader no filtered createSubscriber of the name succeeds in any run until the topic is unregistered |
| RegistryQos.RunQos | src/dds_manager.cpp:1484-1603 | With set_qos accepted, in any run a live writer has the stored QoS, live readers the stored one up to minimum separation, and live publishers and subscribers a prefix of the stored partitions |
| RegistryTheorems.FilterCountersStayBelowHandles | src/dds_manager.cpp:1059-1070 | After any run the counter in a filter name is below the filter handle, so int and std::stoi are safe until 2^31 entities have been created |
| Names.FilterCounterInvertsName | src/dds_manager.cpp:1061-1065 | The text after the last underscore gives the counter back for all topic and reader names |
| Names.FilterNamesEqual | src/dds_manager.cpp:1067-1070 | Two filter names are equal iff the counters are equal and so are the topic_reader strings |
| Names.InstanceNamesEqual | src/dds_manager.cpp:381-420 | Two generated config or transport names are equal iff domain and number are |
| Names.ParseInvertsDecimal | src/dds_manager.cpp:1064-1070 | Reading a printed number gives it back, and its text is digits only, without leading zeros |
| Names.ParseInvertsDecimalInt | src/dds_manager.cpp:381-420 | The same for a domain id, with a minus sign in front of the negative ones |
| Manager.DDSManager.constructor | src/dds_manager.cpp:70-98 | A new manager has the empty registry state and a participant of its own |
| Manager.DDSManager.JoinDomain | src/dds_manager.cpp:196-374 | A second join succeeds iff it asks for the same domain and changes nothing; a first one iff the service makes the participant and the named config is known, and the participant stays either way |
| Manager.DDSManager.RegisterTopic | src/dds_manager.hpp:43-202 | Takes the state where the specification says, for all outcomes: thrown, already there, topic refused, registered with the preset asked for; what that state is, is pinned by RegistryLive.TopicDelivers and RegistrySettings.SettingsFollowRequests |
| Manager.DDSManager.AddTopic | src/dds_manager.hpp:169-196 | Creates the topic with its own listener and stores the group only once the topic exists |
| Manager.DDSManager.RegisterQos | src/dds_manager.cpp:489-552 | Applies the preset asked for once, to stored and live QoS; which values, is pinned by RegistrySettings.SettingsFollowRequests and RegistryLive.LiveFollowsRequests |
| Manager.DDSManager.CreateSubscriber | src/dds_manager.cpp:618-744 | The new state of subscriber, filter, reader, listener and maps, on success and on each failure, pinned by RegistryLive.SubscriberDelivers |
| Manager.DDSManager.CreatePublisher | src/dds_manager.cpp:748-821 | The same for publisher, writer and listener, pinned by RegistryLive.PublisherDelivers |
| Manager.DDSManager.ReplaceFilter | src/dds_manager.cpp:929-1176 | The same for the whole of replaceFilter, emitter included, pinned by RegistryReplace.ReplaceFilterDelivers and RegistryListening.EmitterKeepsFunctions |
| Manager.DDSManager.DropFilter | src/dds_manager.cpp:1017-1046 | The search loop deletes and erases the one matching filter, or leaves all as it was |
| Manager.DDSManager.AddCallback | src/dds_manager.hpp:548-597 | Finds or makes the reader's emitter, adds the function and starts it unless queuing |
| Manager.DDSManager.SetReaderListenerHandler | src/dds_manager.cpp:100-108 | The nested loops give the handler to exactly the reader listeners of all groups |
| Manager.DDSManager.SetWriterListenerHandler | src/dds_manager.cpp:110-116 | The loop gives the handler to exactly the writer listeners of all groups, or crashes at a group without one |
| Manager.DDSManager.UnregisterTopic | src/dds_manager.cpp:556-578 | The group leaves the map, is torn down, and its listeners are freed after its entities; no emitter it frees is joinable |
| Manager.DDSManager.CleanUpTopics | src/dds_manager.cpp:118-146 | With nothing on loan, the tasks run one after the other leave no topic and no entity, and all report success |
| Groups.TopicGroup.Destroy | src/dds_manager.cpp:1623-1721 | The destructor's loops and deletes leave exactly the participant that the teardown specification gives, and report every refusal |
| Groups.TopicGroup.StopEmitters | src/dds_manager.cpp:1676-1682 | Every emitter is stopped, so that its thread handle is not joinable, before it is destroyed |
| Manager.DDSManager.AddPartition | src/dds_manager.cpp:582-614 | The partition is appended to both stored lists |
| Manager.DDSManager.SetMaxDataRate | src/dds_manager.cpp:1252-1296 | Only the named reader gets the minimum separation, computed in 32 bits |
| Manager.DDSManager.SetReaderQos | src/dds_manager.cpp:1586-1603 | All readers of the group get the QoS, one after the other, and it is stored |
| Manager.DDSManager.SetWriterQos | src/dds_manager.cpp:1552-1582 | The writer gets the QoS and it is stored |
| Manager.DDSManager.SetPublisherQos | src/dds_manager.cpp:1484-1514 | The publisher gets the QoS and it is stored |
| Manager.DDSManager.SetSubscriberQos | src/dds_manager.cpp:1518-1548 | The subscriber gets the QoS and it is stored |
| Emitters.Emitter.Run | src/dds_callback.h:140-146 | Starts the thread once and never overwrites a joinable handle |
| Emitters.Emitter.Stop | src/dds_callback.h:148-156 | Joins the thread; one that was listening has cleared the reader |
| Emitters.Emitter.EmitMessage | src/dds_callback.h:73-96 | One message goes to every function of its type in registration order, called or handed to the dispatcher |
| Emitters.Emitter.ReadQueue | src/dds_callback.h:158-212 | Every taken message goes to every function of the type; nothing happens without a reader or when take fails |
| Emitters.DeliveryPosition | src/dds_callback.h:158-212 | Message-major order: message i reaches function j at place i * n + j, and there are no other calls |
| Emitters.DeliveriesCompose | src/dds_callback.h:158-212 | Reading in several calls delivers what one call would |
| Emitters.SentInOrder | src/dds_callback.cpp:19-25 | From any state, asynchronous jobs are the synchronous calls, in order behind the earlier ones, as far as the dispatcher accepts them |
| Sessions.SessionSends | src/dds_callback.h:58-96 | In any session of registrations, mode changes and reads the user is called for the synchronous reads, in order, and the dispatcher gets the calls of the asynchronous ones, in order, up to its capacity over the whole session |
| Sessions.SessionDelivers | src/dds_callback.h:64-212 | In any such session each message goes once to each function registered for its type at that time, at a place fixed by the order of messages and registrations; asynchronously it becomes a job iff that place is below the capacity |
| CleanupTheorems.EveryScheduleIsSerializable | src/dds_manager.cpp:118-146 | In every schedule no group is destroyed twice, and the state is that of atomic unregister calls in the order of destruction |
| CleanupTheorems.CleanupEmptiesEverything | src/dds_manager.cpp:118-146 | When all have returned, each group was destroyed exactly once and the participant is empty |
| CleanupTheorems.CleanupResultIff | src/dds_manager.cpp:133-145 | m_topics is empty without the final clear, and the result is true iff every task found its topic, iff no other caller took one |
| CleanupTheorems.CleanupMakesProgress | src/dds_manager.cpp:133-141 | The waiting main thread is never stuck, and every step but a new arrival leaves less to do |
| Monitor.ParticipantMonitor.OnParticipantDataAvailable | src/participant_monitor.cpp:70-166 | The loop's map updates and callbacks are the fold of one step per sample; what the calls carry is pinned by MonitorLog.CallsTellSamples |
| Monitor.ParticipantMonitor.OnParticipantLocationDataAvailable | src/participant_monitor.cpp:168-260 | The same for location samples |
| Monitor.ParticipantMonitor.WriteHex | src/participant_monitor.cpp:107-126 | The downward loop writes four bytes in reverse, two hexadecimal digits each |
| MonitorLog.CallsTellSamples | src/participant_monitor.cpp:98-163 | In any run there is one call for each sample: an addition for a valid one, else a removal, with the participant's text, the last timestamp and the last flagged address since it was last gone; a removal carries what was known before it |
| MonitorLog.RemovalsTellLastCall | src/participant_monitor.cpp:110-163 | In any run over participants whose texts differ a removal carries exactly the info of the last call about that text if that was an addition; else its location and timestamp are empty |
| MonitorLog.UnsetFunctionsAreLeftOut | src/participant_monitor.cpp:156-163 | Whichever of the two functions are set, the map is the same and the log is that of both without the calls of the one not set |
| Guids.ParseInvertsFormat | src/participant_monitor.cpp:106-128 | The first twelve bytes of a GUID can be read back from its text |
| Guids.GuidTextsEqual | src/participant_monitor.cpp:106-128 | Two GUIDs have the same text iff they agree on their first twelve bytes |
| Guids.PartsAreReadBack | src/participant_monitor.cpp:106-128 | Host, application and instance id each give four bytes back, in order, and the text is the three joined by dots |
| MonitorMerge.MergeConfluentIff | src/participant_monitor.cpp:98-150 | All interleavings of two streams end in the same map iff for each GUID both report, both end with it gone, or both end with it here and a removal in one leaves nothing the other has to say |
| MonitorMerge.InformativeStreamsAgreeIff | src/participant_monitor.cpp:98-150 | For streams whose valid samples say something: iff all its samples are valid, or both streams end with it gone |
| MonitorMerge.MergeIsConfluent | src/participant_monitor.cpp:98-150 | For valid samples every interleaving of the two streams gives the same map: last timestamp and last flagged location per GUID |
| MonitorMerge.RunAt | src/participant_monitor.cpp:98-150 | What any samples, from any state, leave for a GUID: there or not, and with which text, timestamp and location |
| MonitorReplay.ReplayWorksIffTextsDiffer | src/participant_monitor.cpp:152-163 | Replaying the callbacks rebuilds the map in all serialized runs over some participants iff their texts differ |
| MonitorReplay.ReplayWorksIffTwelveBytesDiffer | src/participant_monitor.cpp:106-163 | With the monitor's texts: iff no two participants agree on their first twelve bytes |
| MonitorReplay.ReplayWorksIffLastCallsAgree | src/participant_monitor.cpp:152-163 | Whatever calls reach the user in whatever order, replaying them gives the map iff for every text the last call that arrived says what the last one made says |
| IdlDependencies.FindIdlDependencies | idl2library.cmake:24-49 | Terminates on any include graph, cyclic or not; fails iff a reachable file is unreadable or includes an unknown target; else lists the reachable files, each once, in the order in which the files searched first mention them |
| IdlDependencies.SearchLevel | idl2library.cmake:33-45 | One pass of the outer loop adds each new file of the next level once, target and path in step |
| IdlDependencies.DependenciesAreReachableTargets | idl2library.cmake:24-49 | The list is exactly the reachable targets but the input's, without duplicates, by non-decreasing shortest include distance |
| IdlDependencies.DependencyListIsUnique | idl2library.cmake:24-49 | The list returned is the only one: reachable files once each, in order of first mention by the input and the files of the list itself |
| IdlDependencies.BallIffChain | idl2library.cmake:30-47 | The levels of the search are exactly the include distances |
| Transport.TransportRegistry.JoinDomain | src/dds_manager.cpp:196-473 | The early returns, the counters, named and existing configs, the new config with the port of the domain, and the crash on a refused transport |
| Transport.TransportRegistry.LeaveDomain | src/dds_manager.cpp:163-194 | Destroying a manager removes its participant and leaves counters, configs and transports as they are |
| Transport.TransportRegistry.CopyGlobalConfig | src/dds_manager.cpp:400-466 | The loop copies the global config with the RTPS instance replaced by a new one, and crashes where the new one is refused |
| Transport.CopyCrashesIff | src/dds_manager.cpp:419-434 | The loop crashes iff there is an RTPS instance to copy and the service refuses, the copy's name is in use, or there are two to copy |
| Transport.JoinCreatesIff | src/dds_manager.cpp:346-434 | After any joins and departures, with any configuration file: exactly when a first join without a named config crashes; otherwise it succeeds, and gets a new config and transport under unused names iff the file does not define the config of the next number, and else is counted and left unbound |
| Transport.JoinSucceedsIff | src/dds_manager.cpp:196-473 | Exactly when any join crashes; otherwise it succeeds iff the manager is in that domain already, or is new and the config it names, if any, exists; what it is bound to, if anything; a repeated join changes nothing |
| Transport.CreatedConfigsShareNoRtps | src/dds_manager.cpp:376-420 | In any joins and departures of any managers a created config shares an RTPS instance with no config of another participant, unless that participant named the very same config |
| Transport.CreatedConfigIsCopyOfGlobal | src/dds_manager.cpp:400-466 | A created config holds every other global instance, with multiplicity, and at most one RTPS instance |
| Transport.CreatedTransportHasDomainPort | src/dds_manager.cpp:376-440 | After any joins and departures a manager bound to a created config has one called config-D-N for its own domain D; if there is an RTPS transport to copy, the config lists rtps_udp-D-N, which is an RTPS transport with the port 7400 + 250 * D + 1 computed in 16 bits, and exactly that for D from 0 to 232 |
| Transport.NothingIsTakenBack | src/dds_manager.cpp:163-473 | No join and no departure takes back or changes a config, a transport or its port; a manager keeps its domain and its config, or stays without one, until it is destroyed |
| Transport.CountersCountParticipants | src/dds_manager.cpp:336-354 | The counter of a domain grows by the participants ever made in it; the managers in it are those less the ones that have gone |
| Transport.PortIsStandardIff | src/dds_manager.cpp:393-398 | The port is 7400 + 250 * domain + 1 iff the domain id is at most 232 |
| Transport.PortsEqualIff | src/dds_manager.cpp:393-398 | Two domain ids get the same port iff they are congruent modulo 32768 |
| DdsArray.Sequence.AddToDdsArray | src/dds_simple.h:484-515 | Appends the element iff it is not there |
| DdsArray.Sequence.RemoveFromDdsArray | src/dds_simple.h:519-573 | The in-place shift removes exactly the first match and reports whether there was one |
| DdsArray.WithoutFirstAt | src/dds_simple.h:519-532 | Removal takes out one position and keeps all others in order |
| DdsArray.ArrayIsInsertionOrderedSet | src/dds_simple.h:484-532 | Any sequence of adds and removes leaves the elements added and not removed since, once each, in the order they were placed |
| DdsArray.RemoveUndoesAddIff | src/dds_simple.h:484-532 | Removing after adding restores the array iff the element was not there |
| Polling.GetNumberMatched | src/dds_simple.h:264-412 | Returns the answer of the first poll that reaches the minimum, throws, or comes when the time is up; 0 if that poll throws, and 0 without topic or endpoint |
| Polling.WaitForMatch | src/dds_simple.h:249-260 | True iff the last poll made saw a match |
| Polling.SleepsAreBounded | src/dds_simple.h:303-313 | At most ceil(max_wait / 100) sleeps, none for max_wait <= 0 |
| Polling.ReachesMinimumIffSeen | src/dds_simple.h:296-313 | The minimum is reported iff some poll saw it, and the first such poll is the one reported |
| Polling.MissedIffTooLate | src/dds_simple.h:303-320 | The wait misses a count iff it only shows after the time is up |

## Left out

- OpenDDS itself: discovery, transport I/O, serialization. Creation, deletion, `set_qos`, `take` and `return_loan` are modelled by their preconditions and effects on the entity graph; handles are never reused.
- `createPublisherSubscriber`, which calls `createPublisher` and then `createSubscriber`; `readCallbacks`, which calls the emitter's `readQueue`; `replaceFilterParams`, which sets the expression parameters of the recorded filtered topic the reader reads from; filter parameters, which `createSubscriber` passes on with the filter and `replaceFilter` does not; `setTopicQos`, which stores a QoS for the next topic; the other getters, which return a group's fields; `takeSample`, `takeAllSamples`, `writeSample` and `disposeSample`, which pass a sample through to a recorded reader or writer.
- User listeners (`addDataListener`, `Listener<>`) and calls back into the library from a callback.
- Listener forwarding, logging, QoS tables (QoS values are opaque but for partitions and minimum separation; a preset number stands for the table's entry), INI parsing, environment variables, security properties, type registration and the topic's user data.
- Memory-model races and the recursive `shared_mutex` locking: registry operations are atomic, except in `RegistryCleanup`, where find-and-erase and destruction are separate steps; the deletes inside one destructor are one step there, as groups share no entity.
- A `TopicGroup` holds emitters as values (`EmitterState`), not as objects: updating them through two levels of objects cost too much to verify. The class `Emitter` is proved to follow the same state functions; aliasing between an emitter and its group is not captured.
- `listen()` is a thread that either reaches its wait loop or returns early (the parameter `attached`); the wait set, its conditions and the timing of the loop are not modelled.
- `~DDSManager` after the clean-up (`delete_contained_entities`, `delete_participant`).
- Manager.DDSManager.JoinDomain: whether the named config is known is a parameter, and the crash in the transport set-up is not in it; both are in `Transport.TransportRegistry.JoinDomain`.
- Manager.DDSManager.UnregisterTopic: promises `Valid()` only if none of the topic's readers has samples on loan; with a loan out, entities outlive their listeners.
- RegistryRuns.RunInv: a topic is unregistered only while none of its readers' samples is on loan; what happens otherwise is stated exactly by RegistryTeardown.TeardownResult.
- Transport.CreatedConfigsShareNoRtps: supposes that the configs of the configuration file list instances of the file. `create_inst` is taken to refuse a name in use with a nil result and not to add to the global config.
- Monitor timestamps are text: `put_time` and time zones are not modelled. The loans of the built-in readers are not tracked; `on_participant_data_available` never returns its loan, the location listener does.
- IdlDependencies starts from parsed include lines: the regular expression and the mapping from file names to target names are inputs.
- Polling.GetNumberMatched: one method stands for the subscriber and the publisher version, which differ in the map and the status they ask; the messages they write are left out.
- The rest of idl2library.cmake and the other build files.
