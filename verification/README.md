# A verified model of the MQTT client engine

This project models the MQTT 3.1.1 client of the AWS IoT Device SDK for C++ and proves what its parts keep and how they
fit together: the subscription and acknowledgement protocol, the topic filters, the packet codec and stream framing, the
outbound queue, the keepalive and reconnect loop, the WebSocket read buffer, the Jobs JSON printer, and the install and
rollback of the jobs agent. `dafny verify dfyconfig.toml` checks all of it.

## How it is laid out

The program changes shared objects in place. Each such part is a Dafny class whose methods carry the program's loops and
assignments; every method's contract ties the new state to a function on values, and the protocol theorems are proved
about those functions.

- `MqttTypes`, `KeyOrder`: bytes, 16-bit numbers, response codes; the order in which a sorted map is walked.
- `PacketHeader`, `Strings`, `Bits`, `ConnectCodec`, `PublishCodec`, `SubscribeCodec`: the fixed header, strings, single
  bits, and each packet, with an independent decoder written from MQTT 3.1.1 beside it.
- `Framing`, `Recovery`, `NetworkWrite`, `PacketStream`: a byte stream read in pieces under any schedule of read results;
  which schedules recover it; writing; and the end-to-end theorem that joins framing with all the codecs.
- `TopicFilter`, `Delivery`: filter validity, the translation of a wildcard filter into a regular expression, and the
  first-match search that picks a subscription for a message.
- `SubscriptionProtocol` (the steps on values), `SubscriptionInvariants`, `Requests`, `Acknowledgements`, `Interleaving`,
  `Resubscription`, `PacketIds` (what is proved about them), `EndToEnd` (from the bytes received to the callbacks), and
  `Subscriptions`, `ClientState`, `NetworkRead`, `ResubscribeLoop` (the program's own objects and loops, which carry out
  those steps; packets and the map hold the same objects).
- `OutboundQueue` (on values) and `ClientCore` (the program's queue and pending acknowledgements).
- `Keepalive`: the keepalive thread against the read thread, user threads and the threads that every later connect call
  starts and joins, one shared read or write to a step; `KeepaliveCalls`: that the conditions found there are exact;
  `KeepalivePasses`: what each pass of the loop comes to by itself;
  `Backoff`: the sleeps between reconnect attempts.
- `WebSocketBuffer`, `JobsJson` and `JobsUpdate`, `JobsAgentFiles`.

## Where the code is not what its documentation or the standard leads one to expect

The model follows the code. Each point below is a lemma or part of a contract.

- `a/#` does not match `a`, and a leading wildcard matches topics that begin with `$`; these are the only differences
  from section 4.7 of MQTT 3.1.1 for translatable filters (`StandardAgreement`, `ParentNotMatched`).
- The multi-level placeholder is a negated class of the three bytes of U+C1BF, so `#` fails on topics that hold one of
  them; the matching theorem is for ASCII topics (`HashOutsideAscii`).
- The first-match search takes the least accepting filter even when it is still waiting for its SUBACK, so a message for
  an active subscription can be dropped (`PendingWildcardShadows`).
- An empty string writes nothing but is counted with two bytes (`ConnectLength`, `PublishLength`, `TopicsLength`). Topics
  dropped from a SUBSCRIBE leave its declared length as it was (`DroppedTopicsStayDeclared`).
- A QoS 0 PUBLISH keeps the DUP bit on the wire although the packet's own field drops it (`PublishRoundTrip`); on receipt
  the retained and duplicate flags are swapped, and the recorded size leaves the packet id out (`SendAndReceive`).
- Without a client id the CONNECT constructor records a clean session that the flag byte does not carry; the factory
  refuses that case (`CleanSessionFlag`).
- A read that fails in the middle of a packet loses the bytes already taken (`MidFramePauseDesynchronises`); the packets
  sent are recovered exactly when no read fails inside a packet and the reads last (`CarriedExactly`).
  Writing makes exactly one call, so a partial write is a failure (`WriteToNetworkBuffer`).
- The acknowledgement search depends on the order of the map exactly when two entries wait for the same position
  (`OrderIrrelevantExactly`), which a reused packet id brings about (`StaleIdMakesOrderMatter`). An action processed under
  an id that something still waits under is forgotten (`SettledExactly`); 65535 ids in one run are safe, and 65536 are not
  (`FromTheStart`, `StaleIdFromTheStart`).
- Every connect call after the first starts a second keepalive thread and joins it before it writes its CONNECT. Such a
  thread marks the disconnect callback as due and makes a pass of its own, so the callback can fire twice with no CONNECT
  in between even if the calls come one after another (`SecondConnectFiresTwice`), and two pings can go out with no answer
  in between. Neither can happen exactly if every connect call begins with the client down for good: not connected, no
  reconnect asked for, no ping and no CONNACK outstanding, and the keepalive thread at one of the places `QuietAt` lists
  (`PingsExactly`), and not about to fire the callback (`CallbacksExactly`). A client that connects once is always safe
  (`ConnectOnce`).
- A receive that fails between two WebSocket frames clears what the buffer holds; nothing is lost exactly when it holds
  nothing then (`NothingLostExactly`).
- Connecting a WebSocket empties the buffer but not the byte counter (`WebSocketConnection.Connect`).
- The client token is the one text of a job update that is not escaped (`UpdatePayloadRead`).
- A rollback installs an old backup over a file that did not exist before the job (`NewFilesStay`), and a listed file that
  is the backup of another is lost (`ClashLosesAnOriginal`).

## Model

| member | source | states |
|---|---|---|
| PacketHeader.PacketFixedHeader.Initialize | src/mqtt/Packet.cpp:72-150 | an over-long packet is refused without touching a field, a reserved type leaves the header invalid, and otherwise type, length and flag bits are those of the packet |
| PacketHeader.PacketFixedHeader.RemainingLengthByteCount | src/mqtt/Packet.cpp:152-166 | the byte count predicted from the thresholds, always 1 to 4, is the number of bytes the encoder emits |
| PacketHeader.PacketFixedHeader.AppendToBuffer | src/mqtt/Packet.cpp:168-186 | the encoder loop appends the header byte and exactly the base-128 encoding of the remaining length |
| PacketHeader.HeaderByteStandard | src/mqtt/Packet.cpp:83-143 | every usable header byte is the type code of section 2.2.1 above the flags of section 2.2.2 |
| PacketHeader.EncodeLengthSize | src/mqtt/Packet.cpp:152-166 | the encoding takes 1, 2, 3 or 4 bytes according to the thresholds of section 2.2.3 |
| PacketHeader.RemainingLengthRoundTrip | src/mqtt/Packet.cpp:168-186 | for every length up to 268435455 a decoder of section 2.2.3 returns it from the encoded bytes and takes no others, whatever follows |
| PacketHeader.EncodingMeaning | src/mqtt/Packet.cpp:174-183 | one to four bytes, seven bits to a byte, the low ones first, the high bit set on all but the last |
| PacketHeader.EncodingIsShortest | src/mqtt/Packet.cpp:174-183 | however a length was written, the encoder takes no more bytes for it |
| Framing.ReadLengthDecodes | src/mqtt/NetworkRead.cpp:56-82 | whatever length the loop reads, under any schedule, the decoder of section 2.2.3 reads too, from the same bytes |
| Framing.ContinuationNeverRead | src/mqtt/NetworkRead.cpp:67-71 | where every byte within the limit carries the continuation bit the loop reads no length, under any schedule |
| Strings.AppendUtf8StringToBuffer | src/mqtt/Packet.cpp:217-228 | a non-empty string is appended behind its two-byte length, an empty one not at all |
| Strings.AppendUInt16ToBuffer | src/mqtt/Packet.cpp:188-193 | two bytes, high one first |
| Strings.ReadUInt16FromBuffer | src/mqtt/Packet.cpp:195-200 | reads what a decoder of section 1.5.2 reads and moves on two bytes |
| Strings.ReadUtf8StringFromBuffer | src/mqtt/Packet.cpp:202-214 | yields a string exactly when a decoder of section 1.5.3 finds a non-empty one, and stops where that does |
| Strings.StringRoundTrip | src/mqtt/Packet.cpp:202-228 | a non-empty string of at most 65535 bytes is read back, whatever follows |
| Strings.UInt16RoundTrip | src/mqtt/Packet.cpp:188-200 | every 16-bit number is read back, whatever follows |
| ConnectCodec.ConnectPacket.constructor | src/mqtt/Connect.cpp:48-117 | flag byte, forced clean session, size and header of a CONNECT for every request |
| ConnectCodec.ConnectPacket.Create | src/mqtt/Connect.cpp:135-160 | refuses exactly a keep-alive that does not fit and a lasting session without a client id |
| ConnectCodec.SetConnectFlags | src/mqtt/Common.cpp:90-103 | the will bit is set, the retain and QoS 1 bits as the will asks, and each of the eight bits is otherwise as it was |
| ConnectCodec.WriteWill | src/mqtt/Common.cpp:66-88 | will topic and message as two strings |
| ConnectCodec.ConnectPacket.ToString | src/mqtt/Connect.cpp:179-220 | the bytes are header, declared length and the body the round trip is about |
| ConnectCodec.ConnectLength | src/mqtt/Connect.cpp:57-112 | declared and actual length differ by two bytes for each empty string, so they agree exactly when there is none |
| ConnectCodec.FlagsAgreeWithPayload | src/mqtt/Connect.cpp:60-112 | every flag combination is one section 3.1.2 allows, and user name and will flags are set exactly when the payload carries them |
| ConnectCodec.ConnectRoundTrip | src/mqtt/Connect.cpp:179-220 | a decoder of section 3.1, with the protocol name and level as bytes, recovers session flag, client id, every field of the will, and the user name byte for byte from every carriable request; the keep-alive is the one asked for, or 65535 where that is more; the declared length is right |
| ConnectCodec.CleanSessionFlag | src/mqtt/Connect.cpp:61-77 | the flag sent agrees with the recorded clean session exactly when a client id is given or a clean session asked for |
| PublishCodec.PublishPacket.constructor | src/mqtt/Publish.cpp:41-72 | fields and size of a packet to send; the header keeps the DUP flag the QoS 0 field drops |
| PublishCodec.PublishPacket.FromBuffer | src/mqtt/Publish.cpp:74-102 | a received body is taken apart as a decoder of section 3.3 does; the recorded size leaves out the packet id |
| PublishCodec.PublishPacket.ToString | src/mqtt/Publish.cpp:126-139 | the bytes are header, declared length and the body the round trip is about |
| PublishCodec.CreateFromBuffer | src/mqtt/Publish.cpp:115-124 | refuses exactly bodies of fewer than three bytes |
| PublishCodec.PublishLength | src/mqtt/Publish.cpp:46-50 | the declared length is right exactly when the topic is not empty |
| PublishCodec.PublishRoundTrip | src/mqtt/Publish.cpp:62-69 | a decoder of section 3.3 recovers every field and the QoS 1 packet id, and refuses exactly messages sent with QoS 0 and DUP |
| PublishCodec.ReceivePublish | src/mqtt/NetworkRead.cpp:145-150 | the handler gets the header's duplicate bit as retained and its retain bit as duplicate |
| PublishCodec.SendAndReceive | src/mqtt/NetworkRead.cpp:145-152 | topic, payload, QoS and packet id survive sending and receiving; the flags do exactly when they are equal, the recorded size is right exactly for QoS 0 |
| PublishCodec.PubackPacket.ToString | src/mqtt/Publish.cpp:155-162 | a PUBACK carries the id of the PUBLISH whatever action id it was given |
| ClientCore.PerformPuback | src/mqtt/Publish.cpp:232-247 | a queued PUBACK written whole is read by a decoder of section 3.4 as the id of the PUBLISH it was made for |
| NetworkRead.NetworkReadActionRunner.AcknowledgePublish | src/mqtt/NetworkRead.cpp:254-261 | a received QoS 1 PUBLISH that is delivered while the queue has room is acknowledged: the bytes its queued PUBACK writes decode to the id in the received body, though queueing gave the PUBACK an id of its own |
| SubscribeCodec.SubscribePacket.constructor | src/mqtt/Subscribe.cpp:42-56 | the size loop declares each topic with its length, QoS and bytes |
| SubscribeCodec.SubscribePacket.Create | src/mqtt/Subscribe.cpp:58-64 | refuses exactly empty requests and those of more than eight topics |
| SubscribeCodec.SubscribePacket.ToString | src/mqtt/Subscribe.cpp:66-92 | the bytes, and the side effect: every subscription named carries the packet id and the last of its places in the list |
| SubscribeCodec.UnsubscribePacket.constructor | src/mqtt/Subscribe.cpp:137-149 | the size loop declares each topic with its length and bytes |
| SubscribeCodec.UnsubscribePacket.Create | src/mqtt/Subscribe.cpp:151-157 | the same limits for UNSUBSCRIBE |
| SubscribeCodec.UnsubscribePacket.ToString | src/mqtt/Subscribe.cpp:159-172 | the bytes are header, declared length and the body the round trip is about |
| SubscribeCodec.RequestsLength | src/mqtt/Subscribe.cpp:48-51 | a SUBSCRIBE's declared length is never too small, and right exactly when no topic is empty |
| SubscribeCodec.TopicsLength | src/mqtt/Subscribe.cpp:143-145 | the same for UNSUBSCRIBE |
| SubscribeCodec.DroppedTopicsStayDeclared | src/mqtt/Subscribe.cpp:254-260 | after active topics are dropped the declared length is too great by three bytes or more for each, and right exactly when none was |
| SubscribeCodec.SubscribeRoundTrip | src/mqtt/Subscribe.cpp:66-92 | a decoder of section 3.8 recovers packet id, topics and QoS in order from a packet of the declared length |
| SubscribeCodec.UnsubscribeRoundTrip | src/mqtt/Subscribe.cpp:159-172 | a decoder of section 3.10 recovers packet id and topics in order from a packet of the declared length |
| Framing.ReadFully | src/Action.cpp:35-71 | under any schedule, success means that exactly the bytes asked for were taken |
| Framing.NetworkReader.ReadFromNetworkBuffer | src/Action.cpp:35-71 | the partial-transfer loop delivers the stream's bytes between the old place and the new one, with the result the schedule dictates |
| Framing.NetworkReader.DecodeRemainingLength | src/mqtt/NetworkRead.cpp:56-82 | the multiplier loop reads the base-128 number, and a fifth byte is refused without being read |
| Framing.NetworkReader.ReadPacketFromNetwork | src/mqtt/NetworkRead.cpp:84-104 | header, length and body of one packet off the stream, with every failure on the way |
| Framing.NetworkReader.ReadPackets | src/mqtt/NetworkRead.cpp:125-187 | the packet loop, which passes over a failed read and goes on at the next byte, until it is told to stop |
| Framing.ReadFrameTakes | src/mqtt/NetworkRead.cpp:84-104 | under any schedule a packet that is read is the one that was sent, and reading stops at its end |
| Framing.FrameFailure | src/mqtt/NetworkRead.cpp:56-104 | a packet that is not read reports the code of its last read, the end of the thread, an empty network, or a length of more than four bytes |
| Framing.StreamPrefix | src/mqtt/NetworkRead.cpp:125-187 | whatever the schedule does, the packets read before a failed read first takes a byte are a prefix of those sent |
| Framing.StreamRecovered | src/Action.cpp:35-71 | under any schedule of successful partial reads every packet comes out, in order, and no byte is left over |
| Framing.RecoveredExactly | src/mqtt/NetworkRead.cpp:125-187 | under any schedule the packets read are those sent if and only if no failed read took a byte and the stream was read to its end |
| Recovery.CarriedExactly | src/Action.cpp:35-71 | for every stream of packets and every schedule, the loop recovers exactly the packets sent if and only if no read fails inside a packet, the thread is not stopped before the last one, and the reads last: a condition on the schedule and the packet sizes alone |
| Framing.MidFramePauseDesynchronises | src/mqtt/NetworkRead.cpp:130-133 | a pause in the middle of a packet makes the reader take the rest of it for another packet |
| NetworkWrite.WriteToNetworkBuffer | src/Action.cpp:73-111 | the loop makes exactly one write call for any non-empty packet, and succeeds only if that call took it whole |
| PacketStream.DeclaredIsActual | src/mqtt/Packet.cpp:168-186 | for every packet the client can send, the declared length is the length of the body |
| PacketStream.PacketRoundTrip | src/mqtt/Publish.cpp:126-162 | every sendable CONNECT, PUBLISH, PUBACK, SUBSCRIBE and UNSUBSCRIBE means to the standard's decoders what was sent |
| PacketStream.PacketsRecovered | src/mqtt/NetworkRead.cpp:84-104 | any mix of packets, serialised, concatenated and read back in pieces, is recovered in order with its meaning and nothing left over |
| PacketStream.PacketsRecoveredIf | src/mqtt/NetworkRead.cpp:125-187 | under any other schedule too, as long as no failed read takes a byte and the stream is read to its end |
| PacketStream.PacketsCarried | src/mqtt/NetworkRead.cpp:125-187 | and so under every schedule in which no read fails inside a packet and the reads last |
| PacketStream.PacketsPrefix | src/mqtt/NetworkRead.cpp:125-187 | whatever the schedule does, what is read before a failed read takes a byte decodes to a prefix of what was sent |
| PacketStream.SerialiseConnect | src/mqtt/Connect.cpp:179-220 | constructing and serialising a CONNECT yields the bytes the stream theorems are about |
| PacketStream.SerialisePublish | src/mqtt/Publish.cpp:126-139 | the same for PUBLISH under any packet id |
| PacketStream.SerialisePuback | src/mqtt/Publish.cpp:155-162 | the same for PUBACK |
| PacketStream.SerialiseSubscribe | src/mqtt/Subscribe.cpp:66-92 | the same for SUBSCRIBE, whose objects it stamps |
| PacketStream.SerialiseUnsubscribe | src/mqtt/Subscribe.cpp:159-172 | the same for UNSUBSCRIBE |
| TopicFilter.IsValidTopicName | src/mqtt/Common.cpp:107-140 | the character loop accepts exactly names other than `$` in which `+` fills whole levels and `#` is only the whole last level |
| TopicFilter.PositionsAreLevels | src/mqtt/Common.cpp:116-138 | checking each character against its neighbours is checking the levels |
| TopicFilter.BuildRegex | src/mqtt/Common.cpp:172-188 | the translation loop yields the regular expression the matching theorem is about, and none for a filter without wildcards |
| TopicFilter.TextParses | src/mqtt/Common.cpp:176-187 | for filters with no metacharacter but `$` the text parses to one literal or class per character |
| TopicFilter.CharactersAreLevels | src/mqtt/Common.cpp:176-187 | matching character by character is matching level by level, `+` taking one level and a final `#` one or more |
| TopicFilter.TranslationPreservesMatching | src/mqtt/ClientState.cpp:57-79 | for every valid translatable filter and ASCII topic the regular expression accepts exactly what the levels accept |
| TopicFilter.StandardAgreement | src/mqtt/Common.cpp:28-29 | the translation differs from section 4.7 exactly on the parent of a final `#` and on `$` topics against leading wildcards |
| TopicFilter.ParentNotMatched | src/mqtt/Common.cpp:178-179 | the parent level of a final `#` is never matched |
| TopicFilter.HashOutsideAscii | src/mqtt/Common.cpp:29-29 | `#` alone matches exactly topics without a byte of the placeholder |
| Delivery.AcceptsMeaning | src/mqtt/ClientState.cpp:57-79 | a subscription accepts a topic exactly if it is its own or its filter matches level by level |
| KeyOrder.AtMostMeaning | include/mqtt/ClientState.hpp:56-56 | the order of the map compares byte strings at the first position where they differ, a prefix coming first |
| KeyOrder.WalkedInByteOrder | src/mqtt/ClientState.cpp:60-76 | the keys are walked in that order |
| Delivery.FoundIsLeast | src/mqtt/ClientState.cpp:57-79 | the search finds an accepting entry exactly if there is one, and the one whose bytes come first |
| Delivery.DeliveredOnlyIfGranted | src/mqtt/NetworkRead.cpp:232-252 | in every run no message reaches a callback unless a SUBACK granted that very entry since the last disconnect; the grant of an earlier entry for the same topic does not count |
| Delivery.DeliveredIfUnambiguous | src/mqtt/NetworkRead.cpp:243-252 | when one subscription accepts the topic, the message is delivered exactly when that one is active |
| Delivery.LeastAcceptingDecides | src/mqtt/ClientState.cpp:60-76 | when several accept, the one whose bytes come first alone decides |
| Delivery.PendingWildcardShadows | src/mqtt/NetworkRead.cpp:243-249 | a pending wildcard keeps a message from an active subscription that accepts it |
| Subscriptions.Subscription.Create | src/mqtt/Common.cpp:142-158 | a subscription is made exactly for valid filters, fresh and inactive, with its regular expression |
| Subscriptions.Subscription.IsInSuback | include/mqtt/Common.hpp:302-304 | the acknowledgement test on the object is the one on its value |
| Requests.SubscribeMeaning | src/mqtt/Subscribe.cpp:222-292 | on any list of fresh subscriptions, active entries and those not named stay as they are; of the others the last of each topic waits at its place in what is left of the list, or is out of the map when the write failed |
| Requests.UnsubscribeMeaning | src/mqtt/Subscribe.cpp:335-338 | the topics named carry the id and index 0 and are otherwise as they were, active ones still active |
| Requests.DisconnectMeaning | src/mqtt/Connect.cpp:353-390 | every entry becomes inactive and is otherwise as it was |
| ClientState.ClientState.FindForAck | src/mqtt/ClientState.cpp:98-108 | the iterator loop finds what the first-match search over the sorted keys finds |
| ClientState.ClientState.GetSubscription | src/mqtt/ClientState.cpp:57-79 | for translatable filters, returns the map's object under the accepting key whose bytes come first, and none exactly if no key accepts |
| ClientState.ClientState.SetSubscriptionActive | src/mqtt/ClientState.cpp:94-110 | grants the first entry that waits for the acknowledgement and no other |
| ClientState.ClientState.RemoveSubscription | src/mqtt/ClientState.cpp:117-128 | removes the first entry that waits for the acknowledgement and no other, and reports failure all the same |
| ClientState.ClientState.RemoveSubscriptionByName | src/mqtt/ClientState.cpp:112-115 | removes the named entry and no other |
| ClientState.ClientState.RemoveAllSubscriptionsForPacketId | src/mqtt/ClientState.cpp:130-141 | the erasing loop removes exactly the entries that carry the id |
| ClientState.ClientState.SetSubscriptionPacketInfo | src/mqtt/ClientState.cpp:81-92 | restamps the named entry, if it exists, and no other |
| ClientState.ClientState.InsertSubscriptions | src/mqtt/Subscribe.cpp:249-270 | erasing from the packet and inserting in the map yields the request's specification; afterwards map and packet share their objects |
| ClientState.ClientState.Serialise | src/mqtt/Subscribe.cpp:76-92 | through the shared objects, serialising the packet stamps exactly its topics in the map |
| ClientState.ClientState.PerformSubscribe | src/mqtt/Subscribe.cpp:222-292 | the whole SUBSCRIBE action is the protocol step, for repeated topics and failed writes too, with its bytes and what becomes of its pending acknowledgement |
| ClientState.AcksAreTheOutcome | src/mqtt/Subscribe.cpp:255-260 | what the action does to the pending acknowledgement is the outcome the queue's theorems take for it |
| ClientState.ClientState.PerformUnsubscribe | src/mqtt/Subscribe.cpp:312-351 | the topics wait for the UNSUBACK whether or not the write goes out |
| ClientState.ClientState.PerformDisconnect | src/mqtt/Connect.cpp:353-390 | connected, everything is deactivated; otherwise nothing changes |
| ClientState.ClientState.SetConnected | include/mqtt/ClientState.hpp:74-80 | connecting also clears the reconnect request, disconnecting leaves it |
| NetworkRead.NetworkReadActionRunner.HandlePacket | src/mqtt/NetworkRead.cpp:136-167 | every received packet, by its type, is at most one step of the protocol and one of the queue: which acknowledgement is forwarded with what result, which PUBACK is queued; only a PUBLISH delivers, and only a PINGRESP settles a pending ping |
| NetworkRead.NetworkReadActionRunner.HandleConnack | src/mqtt/NetworkRead.cpp:192-230 | every body and return code: only acceptance connects, clears the reconnect request and tells whoever waits under id 0; the session flag is the first byte |
| NetworkRead.NetworkReadActionRunner.HandlePublish | src/mqtt/NetworkRead.cpp:232-264 | which callback runs with what, and the result, including a full queue; for QoS 1 the last entry of the queue is then a PUBACK that holds the packet id of the received body |
| NetworkRead.NetworkReadActionRunner.HandlePuback | src/mqtt/NetworkRead.cpp:266-274 | answers whoever waits under the id |
| NetworkRead.NetworkReadActionRunner.HandleSuback | src/mqtt/NetworkRead.cpp:276-316 | the loop with its eight-bit counter is the protocol step on the shared objects; whoever waits under the id is told the result that the codes come to |
| NetworkRead.NetworkReadActionRunner.HandleUnsuback | src/mqtt/NetworkRead.cpp:318-327 | removes the entries carrying the id and answers whoever waits |
| SubscriptionInvariants.SearchOrderIrrelevant | src/mqtt/ClientState.cpp:94-128 | while acknowledgements are unique the entry found does not depend on map order |
| SubscriptionInvariants.OrderIrrelevantExactly | src/mqtt/ClientState.cpp:94-128 | for every map and acknowledgement, all orders find the same entry if and only if at most one entry waits for it |
| SubscriptionInvariants.StaleIdMakesOrderMatter | src/mqtt/ClientState.cpp:94-128 | two requests under one id, from the empty map, make it depend on the order |
| SubscriptionInvariants.SubscribeKeepsInv | src/mqtt/Subscribe.cpp:249-292 | subscribing under an unused id keeps keys and acknowledgements in order |
| SubscriptionInvariants.SubackKeepsInv | src/mqtt/NetworkRead.cpp:283-306 | so does any SUBACK |
| SubscriptionInvariants.ResubscribeKeepsInv | src/mqtt/Connect.cpp:474-505 | so does a resubscription under unused ids, complete or not |
| SubscriptionInvariants.RunKeepsInv | src/mqtt/ClientState.cpp:81-141 | in every run with fresh ids each entry stays under its topic and no two wait for the same position of the same packet |
| SubscriptionInvariants.ActiveMeansGranted | src/mqtt/Connect.cpp:353-390 | in every run an entry is active only if a SUBACK granted that very entry since the last disconnect |
| Acknowledgements.AckBatch | src/mqtt/NetworkRead.cpp:283-306 | codes applied one by one decide each topic by its own code and leave all others alone |
| Acknowledgements.SubscribeThenSuback | src/mqtt/NetworkRead.cpp:276-316 | after a clean request under a fresh id a SUBACK of its length makes topic i active, with QoS 0 for code 0 and QoS 1 for code 1 and waiting for nothing, removes it for 128, leaves it waiting otherwise, and touches no other entry |
| Acknowledgements.SubackResultMeaning | src/mqtt/NetworkRead.cpp:307-312 | success, partial and failed say whether anything was granted and whether anything was refused |
| Acknowledgements.UnsubscribeThenUnsuback | src/mqtt/Subscribe.cpp:335-338 | right after an UNSUBSCRIBE under a fresh id the UNSUBACK removes exactly the topics it named |
| Interleaving.RunCarries | src/mqtt/ClientState.cpp:81-141 | through any events that do not use a packet id, an entry carries it exactly if it did and was not requested, unsubscribed or resubscribed again, and then nothing of it but its active flag has changed |
| Interleaving.UnsubscribeThenLaterUnsuback | src/mqtt/ClientState.cpp:130-141 | after any events that do not use the id, the UNSUBACK removes exactly the topics its UNSUBSCRIBE found, less those requested, unsubscribed or resubscribed again since |
| Interleaving.SubscribeThenLaterSuback | src/mqtt/NetworkRead.cpp:276-316 | after any events that do not use the id, the SUBACK decides position by position the topics not restamped since, and touches no other entry |
| Acknowledgements.ResubscribedSurvivesUnsuback | src/mqtt/ClientState.cpp:130-141 | a topic requested again before the UNSUBACK comes survives it |
| EndToEnd.SubscribeThenPublish | src/mqtt/NetworkRead.cpp:232-316 | SUBSCRIBE, the bytes of a SUBACK, PUBLISH: the callback runs exactly when the topic's code is 0 or 1, and otherwise the message finds no subscription or an inactive one |
| EndToEnd.UnsubscribeThenPublish | src/mqtt/NetworkRead.cpp:318-327 | until the bytes of the UNSUBACK come the topic gets its messages, and afterwards it does not |
| EndToEnd.NothingAfterDisconnect | src/mqtt/Connect.cpp:374-379 | after a disconnect no message is delivered, whatever the map holds |
| EndToEnd.AcknowledgementBytes | src/mqtt/NetworkRead.cpp:136-167 | what the bytes of each acknowledgement do to the connection, whom they are forwarded to, and with which response code |
| EndToEnd.ConnackCodes | src/mqtt/NetworkRead.cpp:197-226 | the response code for each CONNACK return code of section 3.2.2.3 |
| ResubscribeLoop.KeepaliveActionRunner.SendBatch | src/mqtt/Connect.cpp:483-487 | one packet under the next id stamps exactly its topics through the shared objects |
| ResubscribeLoop.KeepaliveActionRunner.ResubscribeAll | src/mqtt/Connect.cpp:474-505 | the gathering loop over the map is the batched walk in key order, up to the first failed write |
| Resubscription.RequestsCoverKeys | src/mqtt/Connect.cpp:474-505 | the packets name a prefix of the keys in order, one to eight each, under consecutive ids; all of them in ceil(n/8) packets when no write fails |
| Resubscription.FirstFailureEnds | src/mqtt/Connect.cpp:485-493 | the first failed write ends the walk with its packet, and only a walk without one is complete |
| Resubscription.RequestIdsDiffer | src/mqtt/Connect.cpp:484-487 | the ids of one resubscription differ |
| Resubscription.ResubscribedInAnyOrder | src/mqtt/Connect.cpp:474-505 | when all writes succeed and all codes grant, every subscription ends active, with QoS 1 exactly where its code is 1, and waiting for nothing, whatever order the SUBACKs come in |
| PacketIds.ConsecutiveIdsDistinct | src/mqtt/ClientState.cpp:47-55 | any 65535 consecutive ids differ from each other and from 0 |
| PacketIds.IdsRecur | src/mqtt/ClientState.cpp:47-55 | and the bound is exact |
| OutboundQueue.RunIsFifo | src/ClientCoreState.cpp:131-186 | in every run actions are processed in the order accepted, none lost or taken twice, and the queue stays within its limit |
| OutboundQueue.HandlersFireOnce | src/ClientCoreState.cpp:150-170 | in every run no handler is called twice, even when ids are reused |
| OutboundQueue.RunIsHeard | src/ClientCoreState.cpp:150-233 | in every run the calls made to handlers are exactly one for each acknowledgement of a pending id and each failed action, in order, with that id and that response code |
| OutboundQueue.BlockingHears | src/ClientCoreState.cpp:103-129 | a blocking call hears the acknowledgement of its own id, 0 for connect, with its response code |
| OutboundQueue.NoActionForgotten | src/ClientCoreState.cpp:188-233 | with fresh ids, of queued actions and of blocking calls that delete what waits under theirs, every processed action is still waiting, was notified, or was dropped by the already-active path |
| OutboundQueue.ShortRunsAreFresh | src/ClientCoreState.cpp:77-79 | up to 65535 ids are fresh without assumption |
| OutboundQueue.FromTheStart | src/ClientCoreState.cpp:69-82 | from the start all three hold, and every processed action is in exactly one of the three places |
| OutboundQueue.SettledExactly | src/ClientCoreState.cpp:150-170 | for every state and outcome, an action not yet heard of is settled by being processed if and only if it failed, dropped its own acknowledgement, or has an id nothing waits under |
| OutboundQueue.BlockingSettledExactly | src/mqtt/Subscribe.cpp:280-287 | an action that waits stays settled through a blocking call if and only if the call does not register and delete under its id |
| OutboundQueue.StaleIdFromTheStart | src/ClientCoreState.cpp:199-199 | a run from the start with n + 2 ids leaves its second action settled if and only if n + 1 is no multiple of 65535, so the bound of 65535 ids cannot be raised |
| OutboundQueue.StaleIdForgetsAction | src/ClientCoreState.cpp:199-199 | with a stale id an action is forgotten and the old handler hears of it |
| OutboundQueue.StaleBlockingForgetsAction | src/mqtt/Subscribe.cpp:280-287 | a blocking call under a stale id that fails deletes the other action's acknowledgement, and its handler is in no place at all |
| ClientCore.ClientCoreState.GetNextActionId | src/mqtt/ClientState.cpp:47-55 | the next id in place, wrapping from 65535 to 1 |
| ClientCore.ClientCoreState.EnqueueOutboundAction | src/ClientCoreState.cpp:69-82 | the queue on shared action data takes the specified step; a full queue refuses and issues no id |
| ClientCore.ClientCoreState.RegisterPendingAck | src/ClientCoreState.cpp:188-201 | an acknowledgement already pending under the id is kept |
| ClientCore.ClientCoreState.DeletePendingAck | src/ClientCoreState.cpp:203-209 | forgets the id and nothing else |
| ClientCore.ClientCoreState.ForwardReceivedAck | src/ClientCoreState.cpp:225-233 | calls the waiting handler once, with the id and the response code it is given, and forgets it |
| ClientCore.ClientCoreState.PerformAction | src/ClientCoreState.cpp:103-129 | a blocking call takes the specified step whatever its action does, and waits for a response exactly when the write went out and something is pending under its id |
| ClientCore.ClientCoreState.ProcessNextAction | src/ClientCoreState.cpp:131-186 | one turn of the processing loop is the specified step for every outcome, unregistered types included |
| Keepalive.PingsAreAnswered | src/mqtt/Connect.cpp:557-592 | in every interleaving whose connect calls begin quietly, two PINGREQs are separated by a PINGRESP or a reconnect attempt |
| Keepalive.StepKeepsCalls | src/mqtt/Client.cpp:128-156 | through any step of a run of quiet calls, a thread started by a later call finds nothing to do, and a call that has written its CONNECT is disturbed by no reconnect while it holds the lock |
| Keepalive.CallbacksAreSeparated | src/mqtt/Connect.cpp:410-595 | in every interleaving whose connect calls begin silently, two disconnect callbacks are separated by a written CONNECT |
| Keepalive.ConnectOnce | src/mqtt/Client.cpp:128-156 | a client that calls connect once has both guarantees in every interleaving, whatever is lost and reconnected |
| KeepaliveCalls.PingsExactly | src/ClientCore.cpp:68-93 | the condition on the state at the start of a call is exact: the call begins quietly if and only if pings stay separated however the run goes on in quiet calls |
| KeepaliveCalls.CallbacksExactly | src/ClientCore.cpp:68-93 | and so is the one for callbacks: the call begins silently if and only if callbacks stay separated however the run goes on in silent calls |
| KeepaliveCalls.LoudCallPingsTwice | src/mqtt/Connect.cpp:571-590 | any later call that does not begin quietly can go on to two pings with no answer in between |
| KeepaliveCalls.LoudCallFiresTwice | src/mqtt/Connect.cpp:434-555 | any later call that does not begin silently can go on to two callbacks with no CONNECT in between |
| KeepaliveCalls.NextCallFires | src/mqtt/Connect.cpp:427-555 | once the connection is lost with reconnecting off and the callback settled, the next call fires it again before its CONNECT, though the first keepalive thread takes no step |
| KeepaliveCalls.SecondConnectFiresTwice | src/mqtt/Client.cpp:128-156 | such a run from the start, with one call after the other |
| KeepalivePasses.Reconnects | src/mqtt/Connect.cpp:435-526 | a pass that reconnects: a callback that is due fires, a CONNECT is written, the reconnect is no longer asked for, and the callback is due again |
| KeepalivePasses.ConnectFails | src/mqtt/Connect.cpp:528-541 | one whose CONNECT cannot be written: the reconnect is still asked for and the callback is settled |
| KeepalivePasses.ConnackFails | src/mqtt/Connect.cpp:528-541 | the same where the CONNECT is not accepted |
| KeepalivePasses.ResubscribeFails | src/mqtt/Connect.cpp:517-525 | a connection lost while resubscribing is given up and asked for again |
| KeepalivePasses.OnlyTells | src/mqtt/Connect.cpp:543-555 | with reconnecting off a callback that is due fires, is settled, and nothing else happens |
| KeepalivePasses.Pings | src/mqtt/Connect.cpp:571-591 | a pass that pings leaves the ping outstanding |
| KeepalivePasses.PingFails | src/mqtt/Connect.cpp:574-588 | a ping that cannot be written gives the connection up and asks for another |
| KeepalivePasses.PingUnanswered | src/mqtt/Connect.cpp:557-570 | so does a ping still outstanding |
| KeepalivePasses.WaitsForConnection | src/mqtt/Connect.cpp:417-427 | the thread waits until the client is connected and then marks the callback due |
| KeepalivePasses.ReadFails | src/mqtt/NetworkRead.cpp:168-186 | the first failed read of a watching read thread disconnects a connected client and asks for a reconnect; others do nothing |
| Backoff.ReconnectAttempts | src/mqtt/Connect.cpp:434-541 | over any series of attempts the timer arithmetic sleeps min*2^min(k,K) after the k-th failure of each outage |
| Backoff.OutageSleeps | src/mqtt/Connect.cpp:528-541 | in an outage the k-th sleep is the minimum doubled k times, or as often as it takes to reach the maximum |
| Backoff.OutagesBeginAfresh | src/mqtt/Connect.cpp:437-461 | after an accepted reconnect the sleeps begin afresh |
| Backoff.DoublingsLeast | src/mqtt/Connect.cpp:534-536 | K is the least number of doublings that reaches the maximum |
| Backoff.SleepBounds | src/mqtt/Connect.cpp:534-536 | the sleeps never decrease and never exceed the larger of min and 2*max-2 |
| Backoff.SleepSettles | src/mqtt/Connect.cpp:534-536 | from the K-th failure on the sleep is constant and at least the maximum |
| Backoff.SettlesAtMaximum | src/mqtt/Connect.cpp:534-536 | it settles at the maximum exactly when that is min times a power of two |
| Backoff.DefaultSleeps | src/mqtt/ClientState.cpp:26-27 | with the defaults 2, 4, 8 and on to 128 seconds |
| WebSocketBuffer.WebSocketConnection.ReadInternal | network/WebSocket/WebSocketConnection.cpp:187-238 | prefix up to the offset plus exactly the bytes asked for, counter and buffer kept equal; every failure clears the buffer, and its code says whether the network failed, a frame violated the protocol, or a CLOSE frame came |
| WebSocketBuffer.WebSocketConnection.AppendBytesToBuffer | network/WebSocket/WebSocketConnection.cpp:240-247 | the byte loop appends the payload and the counter follows |
| WebSocketBuffer.WebSocketConnection.Connect | network/WebSocket/WebSocketConnection.cpp:181-184 | after a connect counter and buffer agree exactly when the counter was zero before |
| WebSocketBuffer.WebSocketConnection.Disconnect | network/WebSocket/WebSocketConnection.cpp:297-307 | resets both |
| WebSocketBuffer.PollConserves | network/WebSocket/WebSocketConnection.cpp:187-238 | a read drops what a failing receive found buffered and neither loses nor repeats any other data |
| WebSocketBuffer.PollSucceeds | network/WebSocket/WebSocketConnection.cpp:187-238 | with frames in order a read succeeds exactly when there is enough data |
| WebSocketBuffer.ReadsAreSlices | network/WebSocket/WebSocketConnection.cpp:187-252 | however the data is split into frames, successive reads hand out consecutive slices of it |
| WebSocketBuffer.NothingLostExactly | network/WebSocket/WebSocketConnection.cpp:208-225 | whatever fails, and with reads going on after failures, what is handed out and what is still to come make up the data in order if and only if no receive fails while bytes are buffered |
| JobsJson.Escape | src/jobs/Jobs.cpp:134-148 | the escaping loop yields the text the round trip is about |
| JobsJson.TextRoundTrip | src/jobs/Jobs.cpp:134-148 | a reader of section 7 of RFC 8259 gets back every string and stops at its closing quote |
| JobsJson.NoBareQuote | src/jobs/Jobs.cpp:134-148 | escaped text never ends a string by itself |
| JobsJson.SerializeStatusDetails | src/jobs/Jobs.cpp:150-162 | the loop prints the object of the map in the order of the walk |
| JobsJson.ValueRoundTrip | src/jobs/Jobs.cpp:150-162 | whatever nesting of objects and strings is printed is read back, whatever follows |
| JobsJson.StatusDetailsRoundTrip | src/jobs/Jobs.cpp:150-162 | printing and reading gives the same map for every map of strings |
| JobsJson.SerializeJobExecutionUpdatePayload | src/jobs/Jobs.cpp:201-235 | the payload is the printed document with the raw token, and empty for a status without a name |
| JobsJson.UpdatePayloadRead | src/jobs/Jobs.cpp:229-231 | the payload reads back as meant exactly when the client token holds neither a quote nor a backslash |
| JobsUpdate.UpdateSays | src/jobs/Jobs.cpp:201-235 | the document holds status, details, version, number, flags and token each under its own name, exactly when it should |
| JobsUpdate.DigitsMeaning | src/jobs/Jobs.cpp:216-221 | numbers are printed in decimal without leading zeros |
| JobsUpdate.StatusNames | src/jobs/Jobs.cpp:113-132 | the name of each state |
| JobsAgentFiles.JobsAgent.BackupFiles | samples/JobsAgent/JobsAgentOperations.cpp:178-204 | the backup loop on the file system is its specification, up to the first copy that cannot be opened |
| JobsAgentFiles.JobsAgent.RollbackFiles | samples/JobsAgent/JobsAgentOperations.cpp:206-233 | the rollback loop restores what it can open and reports the rest |
| JobsAgentFiles.JobsAgent.DownloadFiles | samples/JobsAgent/JobsAgentOperations.cpp:235-287 | the download loop with its partial transfers, and its rollback on failure |
| JobsAgentFiles.DownloadSucceedsExactly | samples/JobsAgent/JobsAgentOperations.cpp:235-287 | a download succeeds if and only if it can begin and every file with a source is opened and completely received |
| JobsAgentFiles.DownloadInstalls | samples/JobsAgent/JobsAgentOperations.cpp:255-280 | then each such file holds the bytes received for it, those of the last entry that names it, and every other file is as it was |
| JobsAgentFiles.FetchMeaning | samples/JobsAgent/JobsAgentOperations.cpp:255-280 | and one that fails has written exactly the entries up to the one at fault |
| JobsAgentFiles.BackupSucceedsExactly | samples/JobsAgent/JobsAgentOperations.cpp:178-204 | a backup succeeds if and only if every copy of an existing file can be opened, and then the copy stands under the name with `.old` behind it |
| JobsAgentFiles.RollbackSucceedsExactly | samples/JobsAgent/JobsAgentOperations.cpp:206-233 | a rollback reports success if and only if every file that has a copy can be opened |
| JobsAgentFiles.OriginalsRestored | samples/JobsAgent/JobsAgentOperations.cpp:178-287 | after a failed download a listed file has its original contents exactly when rollback could open it or the download had not changed it |
| JobsAgentFiles.NothingLost | samples/JobsAgent/JobsAgentOperations.cpp:178-287 | when rollback can open its targets every listed file that existed is restored |
| JobsAgentFiles.NewFilesStay | samples/JobsAgent/JobsAgentOperations.cpp:206-233 | a file that did not exist keeps what was downloaded, or gets an older backup |
| JobsAgentFiles.OthersUntouched | samples/JobsAgent/JobsAgentOperations.cpp:178-287 | files neither listed nor backups of listed ones are left alone |
| JobsAgentFiles.ClashLosesAnOriginal | samples/JobsAgent/JobsAgentOperations.cpp:190-198 | a listed file that is the backup of another is lost |

## Left out

- Threads, locks and condition variables: each handler or action body is one step, save in `Keepalive`, where each shared
  read or write is; reading the two reconnect flags at the top of the loop is one step there.
- The real clock: the keepalive's timers and the acknowledgement timeout are free choices, the sleeps are numbers.
- TLS, sockets, the WebSocket handshake and wslay: the network is a byte stream, or a list of frames, with a schedule of
  results; what a write comes to is a parameter.
- WebSocket frames with the PING opcode: the program answers them through an empty pointer.
- Received packets the program reads past the end of: a SUBACK, UNSUBACK or PUBACK body of fewer than two bytes, and a
  PUBLISH body without a topic or without its packet id, are outside the handlers' preconditions.
- Reads and their failures inside `Keepalive`: that a read fails is a free choice there, and what follows is modelled
  only as far as disconnecting and asking for a reconnect.
- Blocking calls: their result is a free choice, since the shared handler does not check whose acknowledgement came;
  `OutboundQueue` models only what they do to ids and pending acknowledgements.
- `DeleteExpiredAcks`: it does not advance past unexpired entries and nothing calls it.
- Connect calls at the same time: each of them changes the map of threads without a lock. Calls come one after another
  here, with every other thread free to run.
- A keepalive thread told to stop reads the flag together with the last step of its pass.
- A CONNACK without a CONNECT: the theorems on connect calls leave it out; a CONNECT may go unanswered.
- The packet id generator is one step; two threads in it at once are not modelled.
- GetSubscription: for filters with metacharacters other than `$`, `+` and `#` it is not said which entry is found, since
  `std::regex` may match them or throw; `Deliver`, `HandlePublish` and `HandlePacket` then promise only that at most one
  callback of an active entry runs.
- Regular expressions beyond literals, escapes, the two starred negated classes and full matching: `RegexMatch` accepts
  nothing for them, so filters with other metacharacters are outside the matching theorem.
- UTF-8 validation, logging, response-code strings, and the CONNACK session flag beyond its storage.
- Action data handed to the queue a second time while it is still queued: it would be given one id for both places.
- Publish and connect actions' own registration of a pending acknowledgement: for PUBLISH it repeats what the queue has
  done; CONNECT is only ever a blocking call.
- PerformAction: what its action does and the response it hears are parameters; what other threads do while it waits are
  steps of their own.
- PerformDisconnect: says nothing of the DISCONNECT packet's bytes and of the network's answers, which the program
  ignores.
- ProcessNextAction: what the action does on the network is a parameter of the step, not part of its contract.
- `GetJobTopic`, the other Jobs payloads, and numbers beyond 64 bits: `Digits` prints any natural number.
- The status details the jobs agent reports, and reading or opening failures of files that exist when they are read.
- Strings in `JobsJson` are sequences of characters where the program has bytes.
- Null arguments, which the program answers with an error or refuses.
- The keepalive loop as one imperative method: what is proved of it is about interleavings, so `Keepalive` is a state
  machine on values; its reconnect and resubscription parts are loops in `Backoff` and `ResubscribeLoop`.
- JSON numbers, arrays and literals, and surrogate escapes: the reader knows strings and objects, which is all the printer
  writes.
