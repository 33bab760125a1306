# Verified model of the shark-mqtt broker

This project models, in Dafny 4.11, the parts of the shark-mqtt MQTT broker where a message can be lost,
repeated, misrouted or misread: outbound and inbound QoS 1/2 delivery, flow control, the subscription trie with its
shared groups and ACL coverage, the retained-message index and its counter, last wills, connection admission and the
wire codec. `dafny verify dfyconfig.toml` checks all of it.

## How it is laid out

| module | what it holds |
|---|---|
| `Outbound`, `OutboundBroker`, `ReceivingClient` | the session's Inflight map, the engine's retry table and the packets written, as functions and as the classes that update them in place |
| `Steps` | each outbound handler on its own: what it sends and what it leaves behind |
| `Delivery`, `Contents`, `Takeovers`, `NoLoss`, `FlowControl` | whole runs of broker, channels, stored session and client: at-most-once, contents, clean connects over a live session, no loss, order and window |
| `Inbound` | the inbound QoS 2 staging table and every run of PUBLISH, PUBREL and session save |
| `Topics`, `Acl` | levels, validation, the matching relation, ACL coverage as language containment |
| `Tries`, `SubscriptionTrie`, `TopicTrees` | the subscription trie against a flat table |
| `Strings`, `SharedGroups` | byte order of identifiers, shared groups and their round robin |
| `Matching`, `Subscribing`, `Routing` | what a session makes of a topic; sessions, stored sessions and trie over connect, subscribe, disconnect and expiry; whom a publish reaches |
| `RetainedIndex`, `RetainedCount` | the retained trie against a linear scan; the striped counter and the expiry sweep |
| `Wire`, `Text`, `Properties` | integers, strings and UTF-8, property sections |
| `Packets`, `Encoding`, `Acceptance`, `Framing` | packets of every kind as functions of their bytes, the encoders and the round trips, what the decoders let through, and the decoders as they read a stream |
| `Wills`, `Admission` | will registrations and timers; connection slots |

Concurrent code is a state machine over its critical sections: an action is what one handler does under its lock, and a
theorem about runs holds for every interleaving. Code that updates objects is a class whose methods are proved against
functions; the theorems are about those functions. Go's map iteration order is left open: where it matters a method
returns the order it happened to take, and the theorems hold for all of them.

Where the code and its own comments disagree, the model follows the code. Eleven promises turn out to hold under a
condition, and the condition is proved to be exact:

* A QoS 2 message is handed over at most once in every run if and only if retransmission is off, no retries are allowed, or
  the engine's table cannot be filled (`Takeovers.AtMostOnceIff`). A clean connect that takes over a live session starts
  its identifiers over and leaves the engine's table as it was; a full table refuses the new delivery, and the old entry
  under its identifier releases it (`Takeovers.ReachTwice`). A clean connect keeps engine and session coupled if and only
  if there is no live session or nothing is tracked for it (`Delivery.CleanConnectCoupledIff`), and without such a
  takeover both hold in every run (`Delivery.AtMostOnce`, `Delivery.CouplingHolds`).
* No run loses a QoS 1/2 message if and only if no connection uses in-connection retransmission, the policy before
  MQTT 5.0 (`NoLoss.LosslessIffNoRetransmit`). A give-up frees a packet identifier the receiver still remembers; the
  losing run keeps to a clock that never goes back.
* Over every run, messages first reach the wire in acceptance order if and only if retransmission is off or the client's
  window is zero (`FlowControl.InOrderIff`). A give-up opens the window behind the queue and nothing flushes it.
* A client with a plain filter for a parent of a topic and a shared filter for the topic gets a plain copy that no plain
  filter of it asks for, and as the only member of its group a second one (`Routing.DeliveryExactIff`,
  `Routing.SharedCopied`, `Routing.SharedTwice`).
* The session filter repeats the trie's matching without the '$' protection of section 4.7.2 of the MQTT 5.0 standard, so
  a client that holds a filter for a parent of a '$' topic and a wildcard in a first level, or a shared filter, receives
  that topic (`Routing.ProtectionKeptIff`, `Routing.ProtectionMissed`).
* A clean start is to release the filters of the session it replaces, in memory or stored. The session in memory is
  replaced before its filters are looked up, so its rows go if and only if the stored record names them
  (`Subscribing.CleanStartReleasesIff`, `Subscribing.CleanTakeover`).
* The expiry sweep asks whether a client has a connection, and a client that is connecting has a session first. Every
  session keeps its rows if and only if no filter of the expired record is in use again (`Subscribing.ExpiryKeepsIff`,
  `Subscribing.ExpiryTakesRow`).
* A change of membership is to cost no member of a shared group its turn. The next in turn is served if and only if the
  member served last is still there or stood at an end of the ring (`SharedGroups.NextInTurnIff`); a member that comes
  and goes starves the one behind it, and two topics of one group starve a member of one of them
  (`SharedGroups.FlappingStarves`, `SharedGroups.OtherTopicStarves`). The empty name doubles as "nobody served yet"
  (`SharedGroups.FairIffNoEmptyName`), but the broker names every client before it has a session, so it never occurs.
* A new retained topic is admitted past `maxRetainedTopics` by concurrent publishers, although the comment at the check
  says it cannot happen. With topics on k stripes in use the limit is passed by k - 1 at most, and by that much in some
  run (`RetainedCount.OvershootIsExact`), so it is kept if and only if they share one stripe
  (`RetainedCount.LimitKeptIffOneStripe`).
* A PUBREC of success is to mean that the broker has the QoS 2 message. It does if and only if the identifier was staged
  already or the receive maximum leaves room: without room, a client older than MQTT 5.0 is answered success and the
  message is dropped (`Inbound.SuccessMeansHeldIff`).
* Of the property sets and subscription lists the encoders accept, some no decoder gives back: binary data of 65536 bytes
  or more, too many user properties, subscription options before MQTT 5.0 and others. Those that come back are
  characterised by `Properties.RoundTripIff` and `Encoding.FiltersExact`.

## Model

| member | source | states |
|---|---|---|
| `Outbound.FindIdUnused` | broker/session.go:566-587 | the wrapping search for a packet identifier ends on an unused one whenever fewer than 65535 are in use (pigeonhole over the ring) |
| `Outbound.NextIdUnused` | broker/session.go:566-587 | the identifier handed out is in 1..65535 and not in the Inflight map |
| `OutboundBroker.ClientSession.NextPacketID` | broker/session.go:566-587 | the loop over a uint16 counter computes the specified identifier and counter, unused while fewer than 65535 are in flight |
| `OutboundBroker.ClientSession.MarkInflightPubRel` | broker/session.go:667-676 | only a QoS 2 record is marked as awaiting PUBCOMP, everything else is unchanged |
| `OutboundBroker.QoSEngine.TrackOutbound` | broker/qos_engine.go:291-316 | an entry is tracked unless the engine is at its limit |
| `OutboundBroker.QoSEngine.TrackAwaitingPubComp` | broker/qos_engine.go:277-289 | a restored delivery past PUBREC is tracked as acknowledged |
| `OutboundBroker.QoSEngine.AckPubRec` | broker/qos_engine.go:329-351 | the entry is marked acknowledged, and PUBREL is asked for exactly when there was one |
| `OutboundBroker.QoSEngine.ScanForRetry` | broker/qos_engine.go:447-539 | one pass ages every due entry, drops the exhausted ones and lists exactly what to abandon and what to resend, in the order visited |
| `OutboundBroker.Broker.DoDeliver` | broker/pub_sub.go:814-916 | session, engine and wire end up where the delivery function says, which is: dropped past its deadline, queued if the window is full, otherwise recorded, counted, tracked and written under a free identifier with its contents (`Steps.DeliverSends`, `Steps.DeliverWaits`, `Contents.CarriedAsAccepted`) |
| `OutboundBroker.Broker.FlushBufferedOutbound` | broker/pub_sub.go:918-932 | the flush loop sends from the head of the queue while the window is open |
| `OutboundBroker.Broker.FinishDelivery` | broker/qos_outbound.go:12-22 | a completed delivery leaves both tables, frees the window and flushes the queue |
| `OutboundBroker.Broker.HandlePubAck` | broker/qos_outbound.go:12-22 | the whole state after a PUBACK |
| `OutboundBroker.Broker.HandlePubRec` | broker/qos_outbound.go:24-54 | the whole state after a PUBREC, accepted or refused |
| `OutboundBroker.Broker.HandlePubComp` | broker/qos_outbound.go:92-102 | the whole state after a PUBCOMP |
| `OutboundBroker.Broker.DoRetry` | broker/qos_engine.go:447-539 | the whole state after a retry pass, which is: every due delivery without retries left released, every other due one written once, as PUBREL or as PUBLISH with DUP, stamped and counted (`Steps.RetryExact`) |
| `OutboundBroker.Broker.RestoreSessionInflight` | broker/qos_outbound.go:149-161 | the engine is rebuilt from the stored records |
| `OutboundBroker.Broker.ResendSessionInflight` | broker/qos_outbound.go:163-171 | each record's owed packet is written, in the order visited |
| `OutboundBroker.GiveUpsByList` | broker/qos_engine.go:447-539 | abandoning the listed identifiers one by one is what the pass specifies |
| `OutboundBroker.RetrySendsByList` | broker/qos_outbound.go:182-223 | republishing the listed entries one by one is what the pass specifies |
| `Steps.DeliverSends` | broker/pub_sub.go:842-916 | with the window open a message that is not late leaves once, not as a duplicate, under an identifier no delivery holds, and is recorded under it with its contents |
| `Steps.DeliverWaits` | broker/pub_sub.go:814-840 | otherwise it is dropped if late or if 1000 wait, and joins the end of the queue if not; nothing is sent |
| `Steps.FlushDrains` | broker/pub_sub.go:918-932 | a flush takes a prefix of the queue, sends what in it is not late, in order and with its contents, and stops only at an empty queue or a full window |
| `Steps.EndFreesWindow` | broker/qos_outbound.go:12-54 | PUBACK, PUBCOMP and a refusing PUBREC drop exactly their record, give one place of the window back and let the queue into it |
| `Steps.StrayAck` | broker/qos_outbound.go:12-22 | an acknowledgement without a record only tidies the engine |
| `Steps.PubRecExact` | broker/qos_outbound.go:24-41 | an accepting PUBREC is answered with PUBREL if and only if the engine tracks the delivery; it moves the QoS 2 record past its PUBLISH and nothing else |
| `Steps.RetryExact` | broker/qos_engine.go:447-539 | from the records and the clock: one packet for each due delivery with retries left and no other, PUBREL or PUBLISH with DUP by the record's stage; exactly the due ones without retries left are forgotten |
| `Steps.RestoreExact` | broker/qos_outbound.go:149-161 | a resumed session keeps its records; the engine tracks all of them again, at their stage, if and only if its table has room |
| `Steps.HandshakeHandsOnce` | client/client.go:660-718 | however often a PUBLISH is repeated before its PUBREL, the client hands it over once, answers every packet in turn and is ready for the identifier's next use |
| `Steps.EveryCopyHanded` | client/client.go:660-706 | each QoS 1 PUBLISH read is handed over and answered |
| `ReceivingClient.MqttClient.HandlePublish` | client/client.go:660-706 | the client hands over a QoS 2 message only if its identifier is new, and acknowledges either way |
| `ReceivingClient.MqttClient.HandlePubRel` | client/client.go:710-718 | PUBREL forgets the identifier and is answered with PUBCOMP |
| `ReceivingClient.MqttClient.Connected` | client/client.go:78-237 | the duplicate table is emptied by a clean session and by an absent session, and kept otherwise |
| `Delivery.NextSafe` | broker/qos_outbound.go:12-223 | every action of broker, channels, store and client, a takeover included, keeps the invariant; its at-most-once part as long as a retry pass finds tables that agree or sends nothing |
| `Delivery.AtMostOnce` | client/client.go:660-718 | each accepted QoS 2 message is handed to the application at most once, in every run without a takeover, and in every run of a configuration that is not hazardous |
| `Takeovers.AtMostOnceIff` | broker/conn_lifecycle.go:342 | over every run, takeovers included, at most once holds if and only if not: retransmission is on, retries are allowed, and the engine's limit lies within the identifiers |
| `Takeovers.ReachTwice` | broker/qos_engine.go:291-316 | for every hazardous configuration a run in ascending time hands one message over twice |
| `Delivery.CouplingHolds` | broker/qos_engine.go:277-351 | in every run without a takeover each engine entry has a session record with the same QoS and message, and for QoS 2 "acked" equals "pending PUBREL"; with a table that cannot be full, entries and records under one identifier agree in every run |
| `Delivery.CleanConnectCoupledIff` | broker/session.go:273-339 | a clean connect keeps engine and session coupled if and only if it finds no live session or one with nothing tracked |
| `Takeovers.AgreementIff` | broker/qos_engine.go:291-316 | over every run, takeovers included, an entry and a record under one identifier are one delivery if and only if the engine's table cannot be filled |
| `Delivery.RestoreCoupled` | broker/qos_outbound.go:149-161 | rebuilding the engine from stored records re-establishes the coupling |
| `Delivery.RetryCoupledAndOwed` | broker/qos_engine.go:447-539 | a retry pass keeps the coupling and writes only packets the records owe |
| `Delivery.GiveUpsExact` | broker/qos_engine.go:476-539 | a pass releases exactly the records of the entries it gives up |
| `Delivery.ResumeSendsOwed` | broker/qos_outbound.go:163-171 | a resume writes exactly one packet per record, the owed one, under its original identifier |
| `Delivery.OnlyPubRelAfterPubRec` | broker/qos_outbound.go:24-41 | once a PUBREC was accepted no later action of the run, takeovers included, sends that message as a PUBLISH again |
| `Contents.CarriedAsAccepted` | broker/pub_sub.go:842-916 | in every run whatever is recorded or on the wire was accepted by one earlier action and no other, with the QoS, topic, payload and RETAIN flag it still has |
| `Contents.QueuedAsAccepted` | broker/pub_sub.go:832-840 | and whatever waits in the queue, its deadline included |
| `NoLoss.NothingLost` | broker/qos_outbound.go:92-102 | if no connection retransmits, a sent message whose record is gone, in a session that lasts, was handed over |
| `NoLoss.PubCompMeansHandedOnce` | broker/qos_outbound.go:92-102 | a PUBCOMP read by the broker names a QoS 2 record whose message was handed over exactly once |
| `NoLoss.SuppressedIffDuplicate` | client/client.go:660-706 | the client suppresses a QoS 2 PUBLISH if and only if its message was already handed over |
| `NoLoss.LosslessIffNoRetransmit` | broker/qos_engine.go:181-187 | no state reached by a run whose clock never goes back loses a message if and only if no connection may retransmit |
| `NoLoss.ReachLost` | broker/qos_engine.go:476-539 | otherwise, for every such configuration a run in ascending time, over a session that is not clean, loses a message |
| `FlowControl.SentInAcceptanceOrder` | broker/pub_sub.go:832-840 | in every run without a give-up messages first reach the wire in acceptance order: sent, then queued, is accepted without the expired |
| `FlowControl.AcceptedIsAccountedFor` | broker/pub_sub.go:918-932 | in every run accepted = sent + queued + expired, message by message and none twice |
| `FlowControl.TakenIff` | broker/pub_sub.go:814-840 | a message is accepted if and only if its deadline has not passed and the window or the queue of 1000 has room |
| `FlowControl.ExpiredWasLate` | broker/pub_sub.go:918-932 | in every run a message that expired in the queue was offered with a deadline that an acknowledgement found passed |
| `FlowControl.WindowIsExact` | broker/session.go:992-1019 | in every run the counter is the number of records and never above the window, and an identifier is free for every send |
| `FlowControl.WindowFullBehindQueue` | broker/session.go:992-1019 | in every run without a give-up the counter is at the window whenever something is queued |
| `FlowControl.WindowStaysFullIffNoGiveUp` | broker/qos_engine.go:447-539 | behind a queue a retry pass keeps the window full if and only if it gives nothing up |
| `FlowControl.InOrderIff` | broker/qos_engine.go:476-539 | over every run, give-ups included, first transmissions are in acceptance order if and only if retransmission is off or the window is zero |
| `FlowControl.ReachOvertaken` | broker/pub_sub.go:832-840 | otherwise, for every window and every limit of the engine, a run in ascending time sends a later message before an earlier one |
| `Inbound.InboundSession.AddInboundQoS2` | broker/session.go:617-628 | a message is staged under its identifier unless the table is full |
| `Inbound.InboundSession.TakeInboundQoS2` | broker/session.go:640-649 | the staged message is taken out and returned, if there is one |
| `Inbound.InboundSession.HandlePublish` | broker/pub_sub.go:167-238 | the whole effect of an inbound QoS 2 PUBLISH: duplicate, over budget, or staged |
| `Inbound.InboundSession.HandlePubRel` | broker/qos_outbound.go:55-91 | the whole effect of PUBREL: the staged message, as it was published, goes to the router, and PUBCOMP is the answer (`Inbound.PubRelRoutes`, `Inbound.RoutedAsPublished`) |
| `Inbound.StagedLeavesOnce` | broker/session.go:617-649 | in every run entries and exits alternate per identifier, and the table is exactly what the history leaves open |
| `Inbound.StagedOrLeft` | broker/session.go:617-649 | every message ever staged is still staged or has left by routing or with its session |
| `Inbound.RoutedAtMostOnce` | broker/qos_outbound.go:55-91 | no message is routed twice in any run |
| `Inbound.RoutedAsPublished` | broker/qos_outbound.go:55-91 | in every run the router gets one message per routing, in order, each with the topic, payload and RETAIN flag of the PUBLISH that brought it |
| `Inbound.PubRelRoutes` | broker/qos_outbound.go:55-91 | PUBREL hands over the message staged under its identifier and takes no other out of the table |
| `Inbound.AnsweredInTurn` | broker/pub_sub.go:167-238 | in every run each PUBLISH and PUBREL is answered once, in order, under its own identifier |
| `Inbound.SuccessMeansHeldIff` | broker/pub_sub.go:207-287 | a PUBREC of success means that the message is held, if and only if the identifier was staged already or there was room; when 0x91 and the disconnect are the answer instead |
| `Inbound.StagedIsAccountedFor` | broker/pub_sub.go:167-238 | staged = routed + discarded + pending, and pending never exceeds the receive maximum |
| `Topics.SplitTopic` | protocol/topic.go:34-44 | the loop yields the levels between slashes |
| `Topics.JoinSplit` | protocol/topic.go:34-44 | joining the levels gives the topic back |
| `Topics.SplitJoin` | protocol/topic.go:34-44 | splitting a join gives the levels back, so splitting is a bijection with lists of slash-free levels |
| `Topics.ValidatePublishTopic` | protocol/topic.go:7-17 | accepted if and only if non-empty and free of wildcards |
| `Topics.ValidateTopicFilter` | protocol/topic.go:50-73 | the character scan accepts if and only if every wildcard fills its level and '#' comes last |
| `Topics.PositionsAreLevels` | protocol/topic.go:50-73 | the character-position rule and the rule on levels agree for every list of levels |
| `Topics.MatchLevels` | protocol/topic.go:75-102 | the loop decides the recursive matching relation |
| `Topics.MatchMeaning` | protocol/topic.go:75-102 | matching is agreement level by level up to the first '#', or over the whole length |
| `Topics.MatchTopic` | protocol/topic.go:26-31 | the string form decides the relation on levels |
| `Topics.MatchSysProtected` | broker/topic_tree.go:531-542 | matching with the '$' protection of section 4.7.2 |
| `Acl.AclCovers` | broker/auth.go:215-249 | the level-by-level comparison decides the coverage relation |
| `Acl.CoversIsSound` | broker/auth.go:215-249 | every topic a covered request matches under '$' protection is matched by the ACL, for all strings |
| `Acl.CoversIffContained` | broker/auth.go:215-249 | for valid filters coverage is containment of the topics matched, up to two named shapes |
| `Acl.CoversTopicIsMatch` | broker/auth.go:169-183 | for a publish topic coverage is matching with the '$' protection |
| `SubscriptionTrie.SubscribeNode` | broker/topic_tree.go:144-163 | the descent stores the client's QoS under the filter's path and says whether it was new |
| `SubscriptionTrie.UnsubscribeNode` | broker/topic_tree.go:165-185 | the descent removes the client, prunes dead nodes on the way up and says whether there was an entry |
| `Tries.CutNoDead` | broker/topic_tree.go:165-185 | removal leaves no dead node below the root |
| `Tries.PutNotDead` | broker/topic_tree.go:144-163 | insertion leaves no dead node below the root |
| `Tries.GetCut` | broker/topic_tree.go:165-185 | removal with pruning changes the value at its path and at no other |
| `Tries.LiveBranch` | broker/topic_tree.go:165-185 | in such a trie every node below the root lies on the path to a stored value |
| `SubscriptionTrie.AddSubscriber` | broker/topic_tree.go:104-117 | list and visited map stay in step, with the client at the higher of its two QoS values |
| `SubscriptionTrie.CollectAllSubscribers` | broker/topic_tree.go:519-527 | everything at or below the node is joined in, each client at its highest QoS |
| `SubscriptionTrie.MatchNodeWithSys` | broker/topic_tree.go:190-220 | the descent joins in exactly the subscriptions whose filter reaches the topic |
| `SubscriptionTrie.ReachedSplits` | broker/topic_tree.go:190-220 | one step of the descent loses nothing and invents nothing |
| `SubscriptionTrie.ReachesMeaning` | broker/topic_tree.go:187-220 | a filter reaches a topic if and only if it matches some leading part of its levels under '$' protection |
| `TopicTrees.TopicTree.Subscribe` | broker/topic_tree.go:47-57 | a valid filter becomes a row of the flat table, an invalid one changes nothing; trie, table and counter stay in step |
| `TopicTrees.TopicTree.Unsubscribe` | broker/topic_tree.go:76-82 | exactly that row leaves the table; trie, table and counter stay in step |
| `TopicTrees.TopicTree.MatchTopicTree` | broker/topic_tree.go:122-142 | one entry per client with a row whose filter reaches the topic, at the highest QoS among them |
| `TopicTrees.SelectedClients` | broker/topic_tree.go:122-142 | no subscription whose filter matches the topic is missed |
| `TopicTrees.TopicTree.SubscribeShared` | broker/topic_tree.go:355-369 | a row is added to the shared table; groups, table and counter stay in step, with no empty filter and no empty group |
| `TopicTrees.TopicTree.UnsubscribeShared` | broker/topic_tree.go:372-397 | exactly that row leaves; no empty filter and no empty group is left, and the turn of a vanished group goes with it |
| `TopicTrees.LeaveTidy` | broker/topic_tree.go:372-397 | leaving keeps no empty filter and no empty group, which is part of the tree's invariant |
| `TopicTrees.EnrolTidy` | broker/topic_tree.go:355-369 | joining keeps no empty filter and no empty group, likewise |
| `TopicTrees.TopicTree.MatchShared` | broker/topic_tree.go:419-517 | exactly one member is served in each group that has an online member the topic reaches, at its highest QoS, and the turn moves to it |
| `SharedGroups.MatchGroup` | broker/topic_tree.go:428-514 | the member served is the one after the last in the sorted list of online matching members |
| `SharedGroups.NextTurn` | broker/topic_tree.go:484-500 | the binary search finds the successor on the ring, or the first member when the last one is gone |
| `SharedGroups.RoundRobin` | broker/topic_tree.go:484-500 | over an unchanged list, from any starting state as many selections as members serve each member exactly once |
| `TopicTrees.CallsServePicks` | broker/topic_tree.go:419-517 | in any sequence of calls, whatever changes in between, the group serves the member whose turn it is on the list each call finds |
| `TopicTrees.CallsAreFair` | broker/topic_tree.go:419-517 | while nothing changes, as many calls as members online serve each of them exactly once |
| `SharedGroups.NextInTurnIff` | broker/topic_tree.go:484-500 | the member served is the next after the last one round the ring of names if and only if that one is present or stood at an end |
| `SharedGroups.FlappingStarves` | broker/topic_tree.go:484-500 | a member that leaves after each of its turns keeps the one behind it from ever being served |
| `SharedGroups.OtherTopicStarves` | broker/topic_tree.go:490-491 | one turn for all filters of a group: two topics that alternate keep a member of one of them from ever being served |
| `SharedGroups.FairIffNoEmptyName` | broker/topic_tree.go:490-492 | a group of several members is served fairly from every state if and only if no member has the empty name, which no client of the broker has |
| `SharedGroups.RosterUnique` | broker/topic_tree.go:466-480 | the sorted online member list is determined by the memberships, not by map order |
| `Matching.MatchSubscriptions` | broker/session.go:461-518 | matched, highest QoS, options of the first filter in byte order among the highest, and the sorted set of all identifiers |
| `Matching.AnswerUnique` | broker/session.go:461-518 | there is exactly one such answer, so it cannot depend on map iteration order |
| `Matching.AllowsLocalPublish` | broker/session.go:547-563 | true if and only if nothing matches or some matching filter leaves No Local clear |
| `Routing.DeliverToClient` | broker/pub_sub.go:638-674 | handed to the offline queue when the session is away, dropped when it does not admit the publish, else delivered at the capped QoS |
| `Routing.RoutePublish` | broker/pub_sub.go:248-252 | each client the trie proposes has one effect, and nobody else has any |
| `Matching.SharedForm` | broker/topic_tree.go:333-352 | a shared filter is its prefix, share name and real filter, so no two parse alike |
| `Matching.SharedParts` | broker/topic_tree.go:333-352 | a filter put together from a share name and a real filter parses into them |
| `Subscribing.Desk.SubscribeFilter` | broker/pub_sub.go:453-572 | a filter is granted if and only if it is well formed, allowed, and not a shared one with No Local; its row and the session's entry appear together |
| `Subscribing.Desk.UnsubscribeFilter` | broker/pub_sub.go:583-629 | a well-formed filter leaves the tree and the session together |
| `Subscribing.AddedRemoved` | broker/session.go:401-431 | subscribing sets QoS and options of one filter, unsubscribing leaves nothing of it, and neither touches another filter |
| `Subscribing.Desk.Resubscribe` | broker/conn_lifecycle.go:317-334 | every filter of a restored session has its row again and no other row changes |
| `Subscribing.Desk.UnsubscribeTopics` | broker/pub_sub.go:24-44 | the rows of the listed filters are gone and no other row changes |
| `Subscribing.Desk.Open` | broker/conn_lifecycle.go:308-402 | resumed, restored or new, clean or not, with or without a store: the sessions, the store and every row after a connect, and every session still has its rows |
| `Subscribing.Desk.Close` | broker/conn_lifecycle.go:872-928 | a session with an expiry interval is saved and keeps its rows, another loses both |
| `Subscribing.Desk.Expire` | broker/lifecycle.go:117-177 | an expired record goes with its rows; every session of a client that is away keeps its rows |
| `Subscribing.InStepAfterOpenIff` | broker/conn_lifecycle.go:308-402 | after a connect the client has the rows of its session and no others if and only if every row before belongs to the filters the connect goes by |
| `Subscribing.CleanStartReleasesIff` | broker/conn_lifecycle.go:356-388 | a clean start leaves the client without a row if and only if the stored record names every filter of the live session |
| `Subscribing.CleanTakeover` | broker/conn_lifecycle.go:342-388 | for every filter, two clean connects and a subscribe between them leave a row that the new session does not have |
| `Subscribing.ExpiryKeepsIff` | broker/lifecycle.go:130-177 | the sweep leaves every session its rows if and only if no filter of the expired record is in a session again |
| `Subscribing.ExpiryTakesRow` | broker/lifecycle.go:130-177 | for every filter, a session that is restored before the sweep comes keeps the filter and loses its row |
| `Subscribing.CloseThenOpen` | broker/session.go:808-884 | a session that outlives its connection comes back with its filters, its options and every row as they were |
| `Subscribing.CleanStartForgets` | broker/conn_lifecycle.go:342-388 | a clean start begins with an empty session and leaves no record in the store; no other client's session, record or row changes |
| `Subscribing.EndedIsGone` | broker/conn_lifecycle.go:872-928 | a session that ends with its connection leaves no record, no row and nothing to resume |
| `Subscribing.ExpiredIsGone` | broker/lifecycle.go:117-177 | nor does one that expired |
| `Routing.DeliveredIff` | broker/pub_sub.go:638-655 | for every topic and client: one away is queued for if and only if a row of it reaches the topic, one present gets it if and only if its session admits it as well |
| `Routing.QueuedAfterClose` | broker/conn_lifecycle.go:905-925 | after a disconnect a publish is queued for the client if and only if its session lives on and had a row for the topic |
| `Routing.DeliveryExactIff` | broker/pub_sub.go:638-674 | for an ordinary topic a client gets what its plain filters and No Local ask for, publisher or not, if and only if it is not the case that only a shared filter matches while a row lies on the way |
| `Routing.DeliveryExact` | broker/pub_sub.go:638-674 | for an ordinary topic, exact for every client with plain filters whatever others hold, nobody served twice, each copy at the lower of publish QoS and highest matching QoS, with the options of the winning filter and the identifiers of all that match, and exactly the clients away with a row are queued for |
| `Routing.SharedCopied` | broker/session.go:461-518 | every session with a filter "a" and a shared filter for "a/b" gets a plain copy of "a/b" |
| `Routing.SharedTwice` | broker/topic_tree.go:419-517 | and if it is alone in the group the shared route serves it as well |
| `Routing.ProtectionKeptIff` | broker/pub_sub.go:638-655 | for a '$' topic a client gets what its unwildcarded filters and No Local ask for if and only if not: none of them matches, a row lies on the way, and a first-level wildcard or a shared filter matches |
| `Routing.ProtectionMissed` | broker/session.go:532-534 | every session with "$a" and "#" gets "$a/b" from another client, although neither filter may match it |
| `RetainedIndex.AddToIndex` | store/memory/memory.go:287-297 | the message is stored under the levels of its topic and nothing else changes |
| `RetainedIndex.Remove` | store/memory/memory.go:304-318 | the path's message is removed and dead nodes are pruned |
| `RetainedIndex.MatchIndex` | store/memory/memory.go:353-381 | the descent adds exactly the messages below the node whose remaining levels match the remaining pattern |
| `RetainedIndex.CollectAll` | store/memory/memory.go:383-393 | everything at or below the node is added, each topic once |
| `RetainedIndex.RetainedStore.SaveRetained` | store/memory/memory.go:266-285 | an empty payload deletes, anything else replaces; index and table stay in step |
| `RetainedIndex.RetainedStore.DeleteRetained` | store/memory/memory.go:330-336 | the topic leaves the table and the index |
| `RetainedIndex.RetainedStore.MatchRetained` | store/memory/memory.go:338-351 | exactly the stored messages whose topic matches the pattern, each once |
| `RetainedCount.CountIsExact` | broker/pub_sub.go:352-445 | in every interleaving, with nothing pending the counter is the number of stored topics and the expiry map their deadlines |
| `RetainedCount.CountIsBounded` | broker/pub_sub.go:338-385 | at no moment does the counter exceed the limit by more than 63 |
| `RetainedCount.OvershootIsExact` | broker/pub_sub.go:338-385 | with topics on k stripes in use, the limit plus k - 1 is a bound on the counter in every run and is reached by one |
| `RetainedCount.LimitKeptIffOneStripe` | broker/pub_sub.go:376-385 | every run that publishes to topics of a set only keeps the limit if and only if the set lies on one stripe |
| `RetainedCount.SweepSparesRefreshed` | broker/lifecycle.go:192-256 | every message the sweep deletes is, at that moment, past its own deadline or the operator's by the sweep's clock |
| `RetainedCount.PastDeadlineIff` | broker/pub_sub.go:427-436 | the recorded deadline has passed if and only if the message's own has or the operator's has |
| `RetainedCount.SweepFindsStale` | broker/lifecycle.go:192-223 | with nothing pending the sweep's list is exactly the stored topics past a deadline |
| `RetainedCount.StoredWasPublished` | broker/pub_sub.go:352-445 | in every run every stored message is one a publisher brought for that topic, or was there from the start |
| `RetainedCount.TurnedAwayIff` | broker/pub_sub.go:376-386 | in every run a publisher is turned away if and only if it brings a message for a topic not stored and the counter has reached the limit; replacing and deleting always get through |
| `RetainedCount.WriteTakesEffect` | broker/pub_sub.go:388-423 | a publisher past the limit stores or deletes its topic while nobody else holds it |
| `RetainedCount.DoomedIsStored` | broker/lifecycle.go:224-250 | the topic the sweep counts down for is one that is stored |
| `RetainedCount.NextInv` | broker/pub_sub.go:352-445 | every step of publishers and sweep keeps lock exclusion, views, expiry map and balance |
| `Wire.ReadVarInt` | protocol/codec.go:506-521 | the multiplier loop computes the value of at most four bytes, longer encodings included |
| `Wire.WriteVarInt` | protocol/codec.go:523-538 | the loop writes the shortest encoding |
| `Wire.ReadRemainingLength` | protocol/codec.go:349-371 | the header loop computes the Remaining Length, refuses a useless last byte and a fifth byte, and reads at most four |
| `Wire.RemainingLengthBijection` | protocol/codec.go:332-406 | the Remaining Length coding is a bijection between 0..268435455 and the accepted encodings |
| `Wire.VarDecShrinks` | protocol/codec.go:506-521 | whatever was read, its shortest encoding is no longer |
| `Wire.VarDecSeptets` | protocol/codec.go:506-521 | the value read is the sum of the seven-bit groups, least significant first, of a chain of at most four bytes |
| `Wire.VarEncSeptets` | protocol/codec.go:523-538 | and the value written likewise |
| `Wire.FixedWidthBigEndian` | protocol/properties.go:942-956 | two- and four-byte integers are read in network byte order and fail only for want of bytes |
| `Wire.WrittenBigEndian` | protocol/properties.go:1011-1016 | and written in it |
| `Text.ValidTextIff` | protocol/codec.go:451-464 | a byte string is accepted as text if and only if it is the UTF-8 encoding of scalar values none of which is a control character |
| `Properties.ReadItems` | protocol/properties.go:309-567 | the decoding loop computes the recursive section parser: identifier, place, repetition, value |
| `Properties.BodyRoundTrip` | protocol/properties.go:614-853 | the fields of a well-formed set, in the encoder's order, decode to that set |
| `Properties.RoundTrip` | protocol/properties.go:278-853 | every well-formed set whose length a Property Length can state comes back as it was sent |
| `Properties.RoundTripIff` | protocol/properties.go:614-853 | of all sets the encoder accepts, exactly the well-formed ones of at most 268435455 bytes come back as they were sent |
| `Properties.UserPropertiesIff` | protocol/properties.go:278-567 | of sets of user properties alone, those of at most 100 come back |
| `Properties.SubscriptionIdsIff` | protocol/properties.go:278-567 | of sets of subscription identifiers alone, any number comes back in a PUBLISH and at most one in a SUBSCRIBE, each of at most 268435455 |
| `Properties.NumbersEncodedIff` | protocol/properties.go:614-853 | the numbers the encoder takes for each numeric property, and no others |
| `Properties.FlagsDecodedIff` | protocol/properties.go:309-567 | a one-byte property is refused unless it is 0 or 1 |
| `Properties.TableByPacket` | protocol/properties.go:102-145 | the table of identifiers and packets, read packet by packet, is what the standard lists for each |
| `Properties.TableByType` | protocol/properties.go:309-567 | and type by type |
| `Properties.LongBinaryLost` | protocol/properties.go:997-1009 | Correlation Data of 65536 bytes or more is encoded without complaint and does not come back |
| `Properties.AcceptedIsWellFormed` | protocol/properties.go:278-567 | every accepted section yields a set the encoder accepts, whose fields encode to no more bytes |
| `Properties.Canonicalises` | protocol/properties.go:278-906 | every accepted section re-encodes without error to one no longer that decodes to the same set |
| `Encoding.HeaderRoundTrip` | protocol/codec.go:332-406 | type, flags and length of a fixed header survive encoding and decoding |
| `Encoding.PublishRoundTrip` | protocol/publish.go:11-176 | the body of every sound PUBLISH parses back to the packet |
| `Encoding.AckRoundTrip` | protocol/publish.go:297-367 | the body of every sound acknowledgement parses back to the packet, in its short and long forms |
| `Encoding.FiltersExact` | protocol/subscribe.go:56-135 | a byte string parses to a list of filters if and only if it is the encoding of that list and the version can express its options |
| `Encoding.TopicsExact` | protocol/subscribe.go:263-304 | a byte string parses to a list of topics if and only if it is the encoding of that list |
| `Encoding.SubscribeRoundTrip` | protocol/subscribe.go:8-143 | the body of every sound SUBSCRIBE parses back to the packet |
| `Encoding.UnsubscribeRoundTrip` | protocol/subscribe.go:231-318 | the body of every sound UNSUBSCRIBE parses back to the packet |
| `Encoding.PacketRoundTrip` | protocol/codec.go:140-328 | an encoded packet in front of any bytes decodes to itself and leaves those bytes |
| `Encoding.StreamRoundTrip` | protocol/codec.go:140-328 | a concatenation of encoded packets of every kind decodes back to the list |
| `Encoding.ConnectionRoundTrip` | protocol/codec.go:140-328 | the same when each packet is written and read by the version that a CONNECT before it announced |
| `Encoding.ConnectForgetsVersion` | protocol/connect.go:215-324 | a connection that starts with a CONNECT is written and read alike whatever version the codec had before |
| `Encoding.ConnectRoundTrip` | protocol/connect.go:215-324 | the body of every sound CONNECT parses back to the packet: every version, with or without properties, will, will properties, user name and password |
| `Encoding.FlagsPlaces` | protocol/connect.go:29-42 | the connect flags, bit by bit: user name 128, password 64, will retain 32, will QoS 8 and 16, will 4, clean 2, reserved 1 |
| `Encoding.WillRoundTrip` | protocol/connect.go:267-292 | will properties, topic and message parse back, and nothing is read without the will flag |
| `Encoding.ConnAckRoundTrip` | protocol/connect.go:326-405 | the body of every sound CONNACK parses back; a version without the session present flag says that there is none |
| `Encoding.SubAckRoundTrip` | protocol/subscribe.go:145-226 | the body of every sound SUBACK parses back to the packet |
| `Encoding.UnsubAckRoundTrip` | protocol/subscribe.go:320-409 | the body of every sound UNSUBACK parses back to the packet |
| `Encoding.DisconnectRoundTrip` | protocol/subscribe.go:427-492 | the body of every sound DISCONNECT parses back to the packet, in its short and long forms |
| `Encoding.AuthRoundTrip` | protocol/subscribe.go:496-571 | the same for AUTH, which only MQTT 5.0 has |
| `Encoding.HeaderPlaces` | protocol/codec.go:332-374 | where type, DUP, QoS and RETAIN stand in the first byte, and that the Remaining Length is its shortest encoding |
| `Encoding.OptionsPlaces` | protocol/subscribe.go:56-92 | where QoS, No Local, Retain As Published and Retain Handling stand in the options of a filter |
| `Acceptance.AcceptedIsSoundIff` | protocol/codec.go:140-207 | whatever body a decoder accepts, the packet has the type and flags of its header and is one the encoder writes in full, if and only if it has no empty property set, no reserved flag and no will QoS without a will |
| `Acceptance.AcceptedComesBack` | protocol/codec.go:140-328 | every such packet is written and read again as it is |
| `Acceptance.AuthReasonsIff` | protocol/subscribe.go:496-571 | an AUTH names one of three reasons, and only MQTT 5.0 has it |
| `Acceptance.PublishNamed` | protocol/publish.go:11-109 | the name of an accepted PUBLISH holds neither '#' nor '+', and is empty only with a topic alias |
| `Acceptance.LargeIsRefused` | protocol/codec.go:140-207 | a packet larger than allowed, header included, is refused as such whatever its body |
| `Acceptance.ReadIsWithinLimit` | protocol/codec.go:140-207 | a packet that is read takes no more bytes than allowed |
| `Acceptance.ConnectFillsBody` | protocol/connect.go:110-115 | no accepted CONNECT is the beginning of another: a byte behind the last field makes it malformed |
| `Acceptance.NothingAfterReason` | protocol/publish.go:297-340 | a byte behind the properties of an acknowledgement, a DISCONNECT or an AUTH makes it malformed |
| `Acceptance.NothingAfterConnAck` | protocol/connect.go:346-362 | the same for CONNACK |
| `Framing.Codec.Decode` | protocol/codec.go:140-207 | a packet is decoded exactly when the front of the stream holds one (`Encoding.PacketRoundTrip` and `Acceptance.AcceptedIsSoundIff` say which bytes that is, for every kind), reading stops right behind it, on refusal never past the frame, and the version left behind is the one a CONNECT announced, else unchanged |
| `Framing.Codec.DecodeToEnd` | broker/conn_lifecycle.go:988-990 | the reading loop yields exactly what the stream holds, each packet read by the version announced before it |
| `Framing.ReadBack` | protocol/codec.go:140-328 | the loop over an encoded list of packets of every kind, a CONNECT that changes the version among them, returns the list |
| `Framing.Codec.DecodePublish` | protocol/publish.go:11-109 | the field-by-field reader accepts exactly the frames that parse, consumes them whole, and never reads past them |
| `Framing.Codec.DecodeAck` | protocol/publish.go:297-340 | the same for the four acknowledgements |
| `Framing.Codec.DecodeIdentified` | protocol/subscribe.go:8-92 | the same for SUBSCRIBE, SUBACK, UNSUBSCRIBE and UNSUBACK |
| `Framing.Codec.DecodeWhole` | protocol/connect.go:10-132 | the same for CONNECT, CONNACK, DISCONNECT, AUTH and the pings, each field where its encoder puts it (`Encoding.ConnectRoundTrip` and the rows after it); a CONNECT fixes the version as soon as it is seen |
| `Framing.ReadHeader` | protocol/codec.go:332-374 | the fixed header reader consumes exactly the header, and at most five bytes whatever they are |
| `Framing.ReadTopic` | protocol/codec.go:422-449 | the topic's length is compared with the frame before any of it is read |
| `Framing.ReadFilters` | protocol/subscribe.go:56-82 | the loop returns the list of filters the bytes are the encoding of, and fails if there is none the version can express |
| `Framing.ReadTopics` | protocol/subscribe.go:263-270 | the loop returns the list of topics the bytes are the encoding of, and fails if there is none |
| `Wills.WillHandler.RegisterWill` | broker/will_handler.go:93-114 | registering stops the client's timer and replaces its registration |
| `Wills.WillHandler.TriggerWill` | broker/will_handler.go:161-219 | ignored without a will, for another connection's will and when armed; otherwise taken at once if the will has no delay, and armed if it has one (`Wills.TriggerTakesOrArms`) |
| `Wills.WillHandler.TimerExpired` | broker/will_handler.go:193-213 | a timer takes the will only if it is still the same registration |
| `Wills.WillHandler.FireWill` | broker/will_handler.go:234-249 | only an armed will is taken, and its timer is stopped |
| `Wills.WillHandler.CancelWill` | broker/will_handler.go:252-259 | timer and registration are dropped |
| `Wills.WillHandler.RemoveWill` | broker/will_handler.go:262-268 | timer and registration are dropped |
| `Wills.WillHandler.StopAll` | broker/will_handler.go:70-80 | every armed timer is cancelled and every registration dropped |
| `Wills.PublishedAtMostOnce` | broker/will_handler.go:161-249 | in every run each registration is published at most once and never if it was withdrawn |
| `Wills.NeverAfterWithdrawal` | broker/will_handler.go:193-213 | after removal, cancellation, replacement or stop no later step publishes that registration, stale timers included |
| `Wills.NeverByAnother` | broker/will_handler.go:161-177 | what is published was set off by the connection that registered it |
| `Wills.ArmedHasWill` | broker/will_handler.go:161-278 | every armed timer entry has a registered will and is that will's own |
| `Wills.LeavesByTimerIffDelayed` | broker/will_handler.go:161-249 | in every run a delayed will leaves only when a timer of its own registration goes off or when it is fired while armed, and a will without delay only at a trigger |
| `Wills.TriggerTakesOrArms` | broker/will_handler.go:161-219 | in every run a trigger by the will's own connection takes a will without delay out at once; a delayed one stays registered with exactly one timer that is not cancelled; any other trigger changes nothing |
| `Wills.ExpiryTakesItsOwn` | broker/will_handler.go:193-213 | in every run a timer takes its will out if that registration still stands, else nothing |
| `Wills.FireTakesIffArmed` | broker/will_handler.go:234-249 | in every run a fired will goes out if and only if its timer runs |
| `Wills.KnownWasRegistered` | broker/will_handler.go:93-114 | in every run every will, wherever it has got to, has the connection and delay it was registered with |
| `Wills.RegisterReplaces` | broker/will_handler.go:93-114 | a registration withdraws the client's earlier one, cancels all its timers and touches no other client |
| `Wills.WithdrawnAlone` | broker/will_handler.go:252-268 | cancelling or removing withdraws the client's will, cancels all its timers and touches no other client |
| `Wills.StopEndsAll` | broker/will_handler.go:70-80 | stopping withdraws every will and leaves no timer that is not cancelled |
| `Admission.Registry.ReserveConnectionSlot` | broker/conn_lifecycle.go:25-36 | a slot is reserved if and only if registered and pending leave one |
| `Admission.Registry.ReleaseConnectionSlot` | broker/conn_lifecycle.go:40-49 | an unused reservation is given back |
| `Admission.Registry.RegisterConnection` | broker/conn_lifecycle.go:569-608 | registering displaces the previous connection of the client and spends the reservation |
| `Admission.Registry.Disconnect` | broker/conn_lifecycle.go:898-937 | only the connection still registered clears the entry |
| `Admission.LimitHolds` | broker/conn_lifecycle.go:25-49 | in every interleaving registered + pending is within the limit, and pending is the number of handlers holding a reservation |
| `Admission.NoSlotLeaks` | broker/conn_lifecycle.go:101-111 | once every handler has ended all slots are free |
| `Admission.RefusedIffFull` | broker/conn_lifecycle.go:25-36 | a newcomer is refused if and only if registered connections and held reservations fill the limit |
| `Admission.LastRegisteredOwns` | broker/conn_lifecycle.go:569-608 | in every run the handler registered for a client is the last that registered for it and has not left: a displaced one takes nobody's entry |

## Left out

- Sockets, TLS, WebSocket framing, listeners, metrics, logging, configuration, the management API and plugins.
- The Redis and Badger stores; the in-memory session and message stores, which are plain maps. Only `Subscribing` has a
  store that may fail to answer.
- Authentication, connection rate limits, flapping detection and topic aliases on the broker side.
- The offline message queue: a publish for a session that is away ends at being handed to it.
- `Delivery` treats one broker handler, one retry pass and one connect with its resend as single steps, with one clock
  reading each. A broker crash is not among its actions, and its runs keep fewer than 65535 deliveries outstanding, beyond
  which the identifier handed out may be in use.
- Nodes of the tries are values: sharing of subtrees through references does not arise and is not modelled.
- The deep copies the stores make of payloads and properties, since values cannot be shared by accident here.
- The hash that picks a stripe is a parameter: the results hold for every hash into 64 stripes.
- The checks made on a CONNECT after it was decoded: each tests one field after the other.
- Encoding.PacketRoundTrip: writes CONNACK as MQTT 3.1.1 and 5.0 do; `Encoding.ConnAckRoundTrip` covers MQTT 3.1, which has
  no session present flag.
- The topic and payload of a will: `Wills` follows a registration, its connection and its delay.
- `Subscribing` takes a connect, a disconnect and the sweep of one client as single steps, and leaves out the check that a
  session belongs to the user who connects.
- Errors keep their class but not their text.
- Routing.DeliveryExact: is exact for clients with plain filters and topics that do not start with '$';
  `Routing.DeliveryExactIff` and `Routing.ProtectionKeptIff` say exactly when it holds for the others.
- Routing.ProtectionKeptIff: leaves out topics below "$share", which a shared filter matches as it is written.
- RetainedCount.CountIsBounded: assumes the store is within the limit at the start, since the code counts whatever it finds.
