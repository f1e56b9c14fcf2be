# A verified model of the node engine and its network layer

The repository is a C++ server framework. Processes ("nodes") find each other over TCP: a node with a
listener accepts sessions, a node with a directory of other nodes keeps connectors to them, and a Ping
and a Pong on each connection make the two ends peers. Underneath are growable byte buffers with
positional writers and readers, a recursive serializer, message classes created by id, framing on a
byte stream, ring buffers, an object table and an epoll loop. This project models these parts in Dafny
and proves what they are for.

`dafny verify dfyconfig.toml` checks everything. Source locations below are paths and lines of the
repository.

## How the model is laid out

| files | what they model |
|---|---|
| `Engine`, `EngineFacts`, `CallFacts` | one `NetEngine` on its `IOEngine` as a value: every handler as a function, what all of them keep, and what each comes to |
| `World`, `WorldFacts` | any number of engines and links with one FIFO queue per direction, as a step system with an inductive invariant over both engines, their tables and the packets in flight |
| `Runs`, `Progress`, `Abandonment`, `Identities` | theorems about every run in every interleaving; when a handshake completes; connectors closed before they are up; identity and accepted sessions |
| `NetEngine` | the engine as an object whose three tables share `Node` objects, each method proved to do what the function in `Engine` does |
| `Handshake`, `HandshakeWire` | the Ping/Pong payload as an instance of the codec, through real buffers and frames |
| `Words`, `Values`, `Codec` | byte order and two's complement; types, values and key order; encoding, decoding, round trip |
| `Growth`, `Buffers`, `Streams`, `Serializes` | capacity arithmetic in wrapping 32-bit words; the two buffer classes; writer and reader; the `Serialize` overloads as loops over them |
| `Messages`, `TestMessages` | message factory, packed messages, conversion; `msgs::TestMessage` with a real map and a real set |
| `Monitor` | the "Buffer" counter under `_MONITOR` |
| `RingBuffers`, `Framing`, `InnerProtocols`, `Sending` | ring buffer, frames, reassembly of a stream, the output side of a connection |
| `Poller`, `Dispatch`, `Network` | interest masks against the kernel's table, one batch of events, the object table |

Code that changes things in place is modelled as classes and methods with loops. Each such method is
proved equal to a specification function, and the theorems are lemmas about those functions.

## What the world may do

The theorems in `Runs` hold under these assumptions, which are the guards of the steps in `World`:
`listen` and `connect` return 0 or a uid that is in no table of the engine and at no end of a link that
the network still uses; a link reports success at most once and after that only losses; a session is
accepted by a listener the engine has open, or whose acceptance is ignored; packets on a link arrive in
order and unchanged until the link is cut, and then only a prefix of what is in flight survives; only
`NetEngine` sends Ping and Pong; a closed session may be reported as closed again. Engines start empty;
their owners may call `setupNode`, `listen`, `connect`, `connectNode` and `close` at any time with any
arguments, and the timer may dial any node of the directory whose uid is zero. A listener goes only by
`close`: the loss of one that the network itself would report is not a step. (`IOEngine::onIOUnListen`,
IOEngine.cpp, lines 362-383, calls `onListen` for it and not `onUnlisten`, so the identity would stay.)

## Where the code is not what it looks like

Each of these is kept as the code has it, with a lemma for the exact condition.

* `BufferReader::bytesLeft` (network/BufferReader.h:27-30) returns the position, so
  `SerializeMessage::serialize(BufferReader&)` takes the rest of the buffer only when the reader is
  half-way through it (`Messages.ReadsRestHalfway`).
* `Buffer::write(pos, buff, size)` cuts off what is behind the data and `StackBuffer::write` does not;
  they agree exactly when the write reaches the end (`Buffers.WritesAgree`).
* `BufferWriter::shrink` moves the position but not the buffer's size; the writer then no longer stands
  at the end (`Streams.BufferWriter.Shrink`).
* `deregisterReadHandler` and `deregisterWriteHandler` toggle a bit. They clear it exactly when it is
  set; `tcpSend` (network/TCP_Network.cpp:282) uses the other case to ask for write events
  (`Poller.DeregisterClearsSetBits`, `Poller.DeregisterCanRegister`).
* `epoll_ctl` refuses exactly the calls for an invalid socket and a `deregisterObject` on an object
  without a mask (`Poller.KernelAgreement`). Neither `tcpConnect` (TCP_Network.cpp, lines 294-310) nor
  its retry (lines 327-332) checks the socket, so without descriptors the object has the write bit and
  the kernel knows nothing of it, until it is deregistered (`Poller.InvalidSocketLeavesMask`).
* `tcpSend` writes to the socket even while older bytes wait in the output buffer, and drops what the
  socket does not take at all. The stream keeps its order, for all data, exactly when the socket takes
  some bytes and nothing is pending (`Sending.SendKeepsOrder`). The FIFO links of `World` assume this.
* A growth that starts at a capacity of 2^31 or more wraps. It no longer doubles the capacity, and two
  such growths can move more bytes than the buffer holds (`Growth.GrowthPaysIff`,
  `Growth.AmortisationFails`).
* A message whose fields serialize to no bytes arrives as no message, and only callbacks carry an error
  over the wire (`Framing.ArrivesUnchanged`).
* The monitor's counter takes int32, so every capacity of 2^31 or more is counted 2^32 short
  (`Monitor.CounterExact`).
* `getWriteableVec` leaves one free place out when the free places go around the end
  (`RingBuffers.RingBuffer.GetWriteableVec`).
* The `core::remove` from the accepted sessions in the Pong handler never removes anything
  (`EngineFacts.PongRemovesNothing`).
* A `setupNode` whose `listen` or confirmation fails has already changed the identity that Pings are
  checked against. It leaves the engine as it was exactly when a node was set up before or it asks for
  the identity the engine has anyway (`EngineFacts.FailedSetupKeepsEngine`); otherwise accepted sessions
  answer to the new identity (`EngineFacts.FailedSetupAnswers`), as they do in a run
  (`Progress.FailedSetupBecomesNode`).
* Closing the listener brings back the engine before `setupNode` exactly when no failed call had left an
  identity there (`EngineFacts.CloseUndoesSetup`).
* `close` on a connector that has not come up leaves its node connecting under the dead uid, and the
  timer never dials it again in the rest of the run (`Abandonment.AbandonedForever`); closing does that
  exactly to the nodes whose connector had not come up (`Abandonment.AbandonedIffNotUp`), and no other
  step does it (`Abandonment.StepAbandonsIff`).

## Model

Some definitions are in files whose comments are not UTF-8: `IOEngine.cpp` and `InnerProtocol.cpp` in
`engine/`, `RingBuffer.cpp` and `TCP_Network.cpp` in `network/`. Rows about them cite the declaration in
the header, or the handler that the definition calls, and name the lines of the definition.

| member | source | states |
|---|---|---|
| `Runs.Agreement` | engine/NetEngine.cpp:68-162 | when an engine registers a peer for a connector on a Pong, then earlier in the same run it pinged for that node, and after that the far engine, acting under the code and type asked for, registered the paired session with exactly the code and type the first engine has now; the info stored is the one the far engine had |
| `Runs.NoSilentHalfOpen` | engine/NetEngine.cpp:90-161 | a session held as a peer is the end of a link that is up and was registered for the Ping on it; unless the link is cut, the connector's engine has the matching peer, or the Pong is in flight, or that engine has closed or lost its end, whatever `setupNode` and `onUnlisten` did in between |
| `Runs.DeadBranches` | engine/NetEngine.cpp:101-153 | among engines running this code no run takes the malformed, unknown-connector, code/type-mismatch or duplicate-peer branch for a Pong, nor the malformed or duplicate-peer branch for a Ping |
| `Runs.EngineProperties` | engine/NetEngine.cpp:41-260 | at every engine in every run: directory and connecting uids are in bijection, accepted and connecting uids are disjoint and cover the peers, callbacks alternate, and a uid is a peer iff it has one more connect than disconnect |
| `Runs.RunKeepsInv` | engine/NetEngine.cpp:13-260 | the invariant over engines, tables and packets in flight holds in every state of every run |
| `Runs.AskedEarlier` | engine/NetEngine.cpp:225-242 | whatever Ping a link records was sent in an earlier step, under the sender's identity of that step, for the node the connector was made for |
| `Runs.AnsweredEarlier` | engine/NetEngine.cpp:90-115 | whatever Pong a link records was sent in an earlier step that registered the session, after the step that sent the Ping |
| `Runs.RunCovers` | engine/NetEngine.cpp:191-260 | in every run each connection an engine holds as available is an end of a link that is up |
| `WorldFacts.StepKeeps` | engine/NetEngine.cpp:13-260 | the invariant is inductive: every step of the owners, the timer, the network and the handlers keeps it |
| `WorldFacts.PingArrives` | engine/NetEngine.cpp:68-105 | a Ping in flight is readable, finds a session without a peer, and can only be rejected for the identity asked for or for a session the node's listener did not accept |
| `WorldFacts.PingHandled` | engine/NetEngine.cpp:82-115 | a Ping leaves the session down, or registered under the asker's own data with the Pong of this node on its way |
| `WorldFacts.PongArrives` | engine/NetEngine.cpp:118-147 | a Pong in flight is readable and finds the connecting node it answers, and no peer yet |
| `WorldFacts.PongHandled` | engine/NetEngine.cpp:134-161 | a Pong leaves the connector down, or its node a peer that keeps the info it was sent |
| `Progress.Asked` | engine/NetEngine.cpp:225-242 | a connecting node's link that comes up carries exactly the Ping of that node under this engine's identity, and no other link changes |
| `Progress.Answered` | engine/NetEngine.cpp:68-116 | a Ping that arrives makes a peer iff the session was accepted by the node's listener and this engine is the node asked for; otherwise the session goes down |
| `Progress.Concluded` | engine/NetEngine.cpp:118-162 | a Pong that arrives makes a peer iff the asker still has the code and type it asked under |
| `Progress.HandshakeCompletes` | engine/NetEngine.cpp:68-242 | from an accepted session and a connector about to come up, delivering Ping and Pong makes each engine the other's peer under the other's code, type and info iff the far engine is the node the connector was made for; otherwise the session is closed |
| `Progress.ReadyIsReachable` | engine/NetEngine.cpp:13-53 | for every code, type and info there is a run from two empty engines to a link on which that handshake is about to start, at the node it was made for |
| `Progress.FailedSetupBecomesNode` | engine/NetEngine.cpp:13-39 | for any two nodes a run leads to an engine that has accepted a session and closed its listener; a `setupNode` that fails there still makes it the node the next Ping registers with |
| `Abandonment.AbandonedForever` | engine/NetEngine.cpp:164-178 | in every run, once a node is connecting under a uid whose connector the engine has forgotten, it stays so in all later states and every dialling by the timer changes nothing |
| `Abandonment.StepAbandonsIff` | engine/NetEngine.cpp:13-260 | a step of any kind leaves a node so iff it is the owner's `close` of a connector that has not come up, while that node is connecting under it |
| `Abandonment.AbandonedByClose` | engine/NetEngine.cpp:13-260 | in every run a node that is so has been since such a `close` in an earlier step |
| `Abandonment.AbandonedIffNotUp` | engine/NetEngine.cpp:244-260 | closing a connector leaves its node so iff the connector had not come up (`close` is defined in IOEngine.cpp, lines 139-171) |
| `Abandonment.AbandonedIsReachable` | engine/NetEngine.cpp:41-53 | for every node `connectNode` and `close` lead there |
| `Identities.AcceptedByNode` | engine/NetEngine.cpp:191-203 | in every run an accepted session was taken in an earlier step by the listener that was the engine's node uid at that step, and has been accepted ever since |
| `Identities.NodeAccepts` | engine/NetEngine.cpp:195-202 | and every session that listener takes is accepted at once |
| `Identities.NodeIdentity` | engine/NetEngine.cpp:13-189 | in every run a node's uid is that of an open listener; uid, code, type and info change only by `setupNode` without a listener and by closing that listener |
| `CallFacts.AcceptsNodesSessions` | engine/NetEngine.cpp:191-203 | a new session is held iff its listener is available, and accepted iff that listener is also the node's own (`onIOAccept` is defined in IOEngine.cpp) |
| `CallFacts.ListensAndCloses` | engine/NetEngine.cpp:180-203 | a listener besides the node's takes sessions that are held but not accepted, and closing it undoes `listen` (defined in IOEngine.cpp, lines 34-54) |
| `CallFacts.ClosedListener` | engine/NetEngine.cpp:180-189 | closing an open listener clears the identity iff it is the node's, and takes only that protocol away |
| `CallFacts.ClosedSession` | engine/NetEngine.cpp:205-223 | closing a session takes it out of every table, with the callback iff it was a peer, and changes nothing else |
| `CallFacts.ClosedConnector` | engine/NetEngine.cpp:244-260 | so does closing a connector that is up; its node keeps everything but the uid |
| `CallFacts.ClosedEarly` | engine/NetEngine.cpp:244-260 | closing what has not come up takes only the protocol away (`close` is defined in IOEngine.cpp, lines 139-171) |
| `CallFacts.PingOutcome` | engine/NetEngine.cpp:68-116 | on any engine a payload that starts with a Hello makes the session a peer with the sender's data, and answers, iff it asks for this code and type and the session is accepted and no peer yet; else the uid is closed |
| `CallFacts.PongOutcome` | engine/NetEngine.cpp:118-162 | the same for a Pong: iff it is for this node, from the node connecting under the uid with the same type, and the uid is no peer yet |
| `CallFacts.MalformedOutcome` | engine/NetEngine.cpp:70-76 | a payload that starts with no Hello closes the uid |
| `CallFacts.IgnoredPackets` | engine/NetEngine.cpp:55-66 | packets for a uid that is not available, and other commands, change nothing (`onIOPacket` is defined in IOEngine.cpp, lines 473-496) |
| `CallFacts.SendsToAvailable` | engine/NetEngine.cpp:110-114 | whatever a call about a uid sends goes to that uid, which is then available |
| `CallFacts.LateReports` | engine/NetEngine.cpp:205-260 | a loss reported after the engine closed the uid itself, or for one that is not available, changes nothing (the reports are defined in IOEngine.cpp, lines 411-471) |
| `CallFacts.Dialled` | engine/NetEngine.cpp:41-53 | a new node, and a redialled one, is connecting under the uid given, which is a connector of the engine that has not come up |
| `CallFacts.SweepDials` | engine/NetEngine.cpp:164-178 | so is after the timer's sweep every node that had no uid and got one |
| `EngineFacts.HandlePingKeeps` | engine/NetEngine.cpp:68-116 | a Ping keeps directory bijection, peer partition, kinds of uids and callback alternation, whatever its payload |
| `EngineFacts.HandlePongKeeps` | engine/NetEngine.cpp:118-162 | so does a Pong |
| `EngineFacts.CloseKeeps` | engine/NetEngine.cpp:180-260 | so does closing any uid, with the callback that runs inside the call (defined in IOEngine.cpp, lines 139-171) |
| `EngineFacts.OnCloseKeeps` | engine/NetEngine.cpp:205-223 | so does the loss of a session |
| `EngineFacts.OnDisconnectKeeps` | engine/NetEngine.cpp:244-260 | so does the loss of a connector |
| `EngineFacts.ConnectNodeKeeps` | engine/NetEngine.cpp:41-53 | so does listing a node, with a fresh uid or none |
| `EngineFacts.SweepKeeps` | engine/NetEngine.cpp:164-178 | the timer's sweep keeps everything, touches no node with a uid, and leaves a node at uid 0 only if its `connect` returned 0 |
| `EngineFacts.SweepNodes` | engine/NetEngine.cpp:168-177 | after the sweep each swept node has the uid it had, or the one its own `connect` returned |
| `EngineFacts.PongRemovesNothing` | engine/NetEngine.cpp:147 | a uid with a connecting node is never among the accepted ones, so the removal there changes nothing |
| `EngineFacts.LostNodeIsRedialled` | engine/NetEngine.cpp:164-178 | a connecting node whose connection is lost is dialled again by the next sweep that gets a uid for it: it is then connecting under that uid alone, which is a new connector |
| `EngineFacts.ClosedNodeIsRedialled` | engine/NetEngine.cpp:164-178 | a connecting node whose connector is closed by its owner is dialled again iff the connector had come up |
| `EngineFacts.CloseUndoesSetup` | engine/NetEngine.cpp:180-189 | closing the listener brings back the engine as it was before `setupNode` iff it had no code, type and info then |
| `EngineFacts.FailedSetupKeepsEngine` | engine/NetEngine.cpp:13-39 | a `setupNode` that fails leaves the engine as it was iff a node was set up already or it asked for the code, type and info the engine had; it never adds a listener |
| `EngineFacts.FailedSetupAnswers` | engine/NetEngine.cpp:82-105 | after it a readable Ping on an accepted session without a peer registers iff it asks for the code and type of that call, or of the node set up before |
| `EngineFacts.AlternationCounts` | engine/NetEngine.cpp:115-161 | in a log that alternates, connects exceed disconnects of a uid by one iff the last callback was a connect, and equal them otherwise |
| `EngineFacts.PeersAreOpen` | engine/NetEngine.cpp:205-260 | the peers are exactly the uids whose last callback was a connect, and each is accepted or connecting |
| `NetEngineObjects.NetEngine.HandlerNodePing` | engine/NetEngine.cpp:68-116 | on shared node objects the handler does to the tables what the specification does to their values, with the same packet or close |
| `NetEngineObjects.NetEngine.HandlerNodePong` | engine/NetEngine.cpp:118-162 | the same for the Pong, where the directory's own node becomes the peer |
| `NetEngineObjects.NetEngine.FinishPong` | engine/NetEngine.cpp:140-161 | the half of that handler after the connecting node is found, including both error branches |
| `NetEngineObjects.NetEngine.AddConnectorPeer` | engine/NetEngine.cpp:154-161 | registering a directory node as a peer and storing its info is seen through both tables and disturbs no other node |
| `NetEngineObjects.NetEngine.AddSessionPeer` | engine/NetEngine.cpp:96-107 | a session's peer is a new object that no other table refers to |
| `NetEngineObjects.NetEngine.OnDisconnect` | engine/NetEngine.cpp:244-260 | zeroing the shared node's uid through two tables is what the specification does once |
| `NetEngineObjects.NetEngine.OnClose` | engine/NetEngine.cpp:205-223 | forgetting a session and its peer |
| `NetEngineObjects.NetEngine.DropPeer` | engine/NetEngine.cpp:214-222 | the callback, the zeroed uid and the erased entry |
| `NetEngineObjects.NetEngine.OnUnlisten` | engine/NetEngine.cpp:180-189 | identity is cleared iff the listener is the node's |
| `NetEngineObjects.NetEngine.OnConnect` | engine/NetEngine.cpp:225-242 | success makes the connector available and sends the Ping iff the uid is connecting; failure does nothing |
| `NetEngineObjects.NetEngine.OnAccept` | engine/NetEngine.cpp:191-203 | a new session becomes accepted iff the listener that took it is available and the node's own |
| `NetEngineObjects.NetEngine.SetupNode` | engine/NetEngine.cpp:13-39 | the identity changes even when `listen` or its confirmation fails, but not while a node uid is set |
| `NetEngineObjects.NetEngine.ConnectNode` | engine/NetEngine.cpp:41-53 | a known code changes nothing; a new one is listed and dialled |
| `NetEngineObjects.NetEngine.OnTimer1000ms` | engine/NetEngine.cpp:164-178 | the loop over the directory is the specification's sweep, for any order of the codes, and leaves every node that had no uid and got one connecting with a connector of its own |
| `NetEngineObjects.NetEngine.Close` | engine/NetEngine.cpp:180-260 | closing runs the callback of the uid's kind and removes the protocol (defined in IOEngine.cpp, lines 139-171) |
| `NetEngineObjects.NetEngine.SessionClosed` | engine/NetEngine.cpp:205-223 | the report of a closed session runs the callback, also after the engine closed it itself; it is ignored when the session's protocol object is not available (defined in IOEngine.cpp, lines 411-427) |
| `NetEngineObjects.NetEngine.ConnectorLost` | engine/NetEngine.cpp:244-260 | the report of a lost connector is ignored unless the engine still holds it (defined in IOEngine.cpp, lines 450-471) |
| `NetEngineObjects.NetEngine.Send` | engine/NetEngine.cpp:110-114 | a packet goes out iff its uid is an available protocol (defined in IOEngine.cpp, lines 183-229) |
| `NetEngineObjects.NetEngine.OnPacket` | engine/NetEngine.cpp:55-66 | packets reach the two handlers only for uids the engine holds as available (defined in IOEngine.cpp, lines 473-496) |
| `Handshake.UnpackPack` | engine/NetEngine.cpp:110-112 | what one engine packs into a Ping or Pong the other unpacks |
| `Handshake.UnpackIff` | engine/NetEngine.cpp:76-81 | a payload reads as a given Hello iff it starts with what that Hello is packed as |
| `HandshakeWire.PackBytes` | engine/NetEngine.cpp:110-111 | the payload is the sender's code, type, info length and info, then the code and type asked for, each word in network order |
| `HandshakeWire.ShakeBytes` | engine/Messages.h:7-12 | every byte of a Ping (command 2) and a Pong (command 3) on the wire |
| `HandshakeWire.HellosArrive` | engine/InnerProtocol.h:15-17 | any sequence of Pings and Pongs, cut into any chunks, is dispatched exactly and in order, and each reads as the data packed (defined in InnerProtocol.cpp, lines 31-175) |
| `HandshakeWire.PackHello` | engine/NetEngine.cpp:110-112 | packing through a 128-byte buffer that may grow gives these bytes |
| `HandshakeWire.UnpackHello` | engine/NetEngine.cpp:76-81 | unpacking through a reader gives the data whose bytes the payload starts with |
| `Codec.RoundTrip` | engine/Serializes.h:27-113 | for every type of the nested universe and every value whose lengths fit int32, decoding the encoding followed by any bytes gives the value and stops exactly behind it |
| `Codec.PrefixFree` | engine/Serializes.h:115-152 | encodings of one type are prefix-free, so a stream of them splits in only one way |
| `Codec.DecodedIsEncoded` | engine/Serializes.h:77-113 | for types without maps and sets the bytes consumed are exactly the encoding of the value they decode to |
| `Codec.ItemsInOrder` | engine/Serializes.h:32-35 | the encoding of elements is that of any first part followed by that of the rest |
| `Codec.FieldsInOrder` | engine/Serializes.h:129-140 | the same for the fields of a struct |
| `Codec.RebuildKeepsLast` | engine/Serializes.h:92-112 | of elements read under one key, in any order and any number, a map keeps the last |
| `Codec.DecodedHasType` | engine/Serializes.h:77-113 | whatever the bytes are, a decoded value has the type asked for and its maps and sets are ordered |
| `Values.RebuildInOrder` | engine/Serializes.h:89-113 | inserting the items of an ordered map or set one by one into an empty one rebuilds it |
| `Values.InsertAtEnd` | engine/Serializes.h:95-99 | a key above all others is inserted at the end, so every prefix stays in order |
| `Values.InsertKeepsOrder` | engine/Serializes.h:95-112 | any insertion keeps a map or set ordered |
| `Values.InsertUpdates` | engine/Serializes.h:95-99 | an insertion changes exactly the entry under its key |
| `Values.LessIff` | engine/Serializes.h:38-59 | numbers compare as numbers, strings and structs at the first difference |
| `Values.LessTotal` | engine/Serializes.h:38-59 | any two keys, however nested, are comparable in exactly one way |
| `Values.LessTransitive` | engine/Serializes.h:38-59 | the order of keys is transitive |
| `Words.NetworkRoundTrip` | network/BufferReader.h:51-91 | a word of any size written in network order is read back unchanged |
| `Words.NetworkDigits` | network/BufferWriter.h:37-59 | byte i of a k-byte word in network order is its digit of weight 256^(k-1-i) |
| `Words.TwosComplement` | network/BufferWriter.h:61-83 | the conversions between signed and unsigned words are inverse bijections |
| `Words.SignedCongruent` | network/BufferWriter.h:61-83 | the unsigned word is congruent to the signed one modulo 256^k, and its top bit is the sign |
| `Words.SwapStoresNetworkOrder` | network/BufferWriter.h:43-59 | a byte-swapped word, stored as a little-endian host stores words, lies in network order |
| `Words.SwapTwice` | network/Common.h:6-15 | swapping the bytes of a word twice gives the word |
| `Words.MacrosMirrorBytes` | network/Common.h:6-15 | each macro moves every byte to its mirror place and undoes itself |
| `Serializes.Serialize` | engine/Serializes.h:27-59 | the writer's buffer grows by exactly the encoding, whenever and wherever it reallocates |
| `Serializes.SerializeFields` | engine/Serializes.h:129-140 | the fold over the fields of a struct writes their encodings in order |
| `Serializes.SerializeItems` | engine/Serializes.h:32-35 | the loop over a container's elements writes theirs |
| `Serializes.SerializeString` | engine/Serializes.cpp:45-50 | a string is written as its int32 length and its bytes |
| `Serializes.Deserialize` | engine/Serializes.h:77-113 | the reader gives the decoded value and stands where decoding stops |
| `Serializes.DeserializeFields` | engine/Serializes.h:142-152 | the same for the fields of a struct |
| `Serializes.DeserializeItems` | engine/Serializes.h:92-112 | the loop that fills an empty container reads exactly the announced elements and rebuilds the container from them |
| `Serializes.WriteThenRead` | engine/Serializes.h:27-127 | through either class of buffer, a value written and read back is the same value |
| `Growth.GrowCapacity` | network/Buffer.h:156-160 | the loop ends for every 32-bit capacity and request, wrap-around included, at the first round that suffices |
| `Growth.GrowStackCapacity` | network/Buffer.h:321-324 | the other class's loop ends with the same capacity |
| `Growth.Remaining` | network/Buffer.h:157-160 | at most 32 rounds are made, and none too many |
| `Growth.LowBitsAreOnes` | network/Buffer.h:159 | after k rounds the low k bits are all ones |
| `Growth.ThirtyTwoRounds` | network/Buffer.h:157-160 | 32 rounds reach the largest uint32 from any capacity |
| `Growth.RoundsExact` | network/Buffer.h:157-160 | k rounds give (c + 1) * 2^k - 1 iff none of them wraps, and less otherwise |
| `Growth.GrownBounds` | network/Buffer.h:149-160 | any growth stays below twice the request; it at least doubles the capacity iff it starts below 2^31 |
| `Growth.GrownExactly` | network/Buffer.h:149-160 | the new capacity is (c + 1) * 2^n - 1 for the n rounds made iff none of them wraps, and then no fewer rounds suffice; none wraps for a request up to 2^31 |
| `Growth.CapacityBelowTwiceLargest` | network/Buffer.h:149-160 | over any requests, wrapping or not, a capacity that grew is below twice the largest request |
| `Growth.AmortisedGrowth` | network/Buffer.h:149-174 | over any requests whose growths start below 2^31 all bytes moved are fewer than the final capacity and fewer than twice the largest request |
| `Growth.NeverWrapsGrowsBelow` | network/Buffer.h:157-160 | growths none of whose rounds wraps start below 2^31 |
| `Growth.GrowthPaysIff` | network/Buffer.h:149-174 | a growth leaves room for the bytes it and all earlier growths moved, whatever they are, iff it starts below 2^31 |
| `Growth.AmortisationFails` | network/Buffer.h:149-174 | from capacity 0xB0000000, kept full, two requests move more bytes than the final capacity |
| `Buffers.Buffer.GrowthIsAmortised` | network/Buffer.h:149-174 | the amortised bound for a buffer object, for everything done to it since it was made |
| `Buffers.Buffer.Ensure` | network/Buffer.h:149-174 | contents stay through reallocation; the capacity is the grown one |
| `Buffers.Buffer.WriteBytes` | network/Buffer.h:104-111 | the data stands at its position and nothing behind it |
| `Buffers.Buffer.Reserve` | network/Buffer.h:113-121 | room at a position, with everything before it kept, or null beyond the end |
| `Buffers.Buffer.Put` | network/Buffer.h:113-121 | storing a word through the pointer lays it over the contents |
| `Buffers.Buffer.Read` | network/Buffer.h:130-135 | the bytes asked for, or null when they are not all there |
| `Buffers.Buffer.Assign` | network/Buffer.h:51-67 | takes the other's contents and capacity; self-assignment changes nothing |
| `Buffers.Buffer.Swap` | network/Buffer.h:69-82 | exchanges contents, capacities and memory, also with itself |
| `Buffers.Buffer.Copy` | network/Buffer.h:39-49 | same contents and capacity in memory of its own |
| `Buffers.Buffer.constructor` | network/Buffer.h:23-28 | empty, with the size asked for or 16 |
| `Buffers.StackBuffer.Ensure` | network/Buffer.h:316-343 | contents stay when the bytes move to the heap; same capacity as the other class |
| `Buffers.StackBuffer.WriteBytes` | network/Buffer.h:270-277 | the data is laid over the contents; what is behind it stays |
| `Buffers.StackBuffer.Put` | network/Buffer.h:280-288 | storing a word through the pointer lays it over the contents |
| `Buffers.WritesAgree` | network/Buffer.h:104-111 | the two classes' writes agree iff the write reaches the end |
| `Streams.SameOnAnyBuffer` | network/BufferWriter.h:37-108 | after any sequence of writer calls both classes, of any capacity, hold the concatenation of the calls' network-order bytes |
| `Streams.WriteAll` | network/BufferWriter.h:37-108 | any sequence of calls appends its bytes and keeps position and size equal |
| `Streams.BufferWriter.WriteUnsigned` | network/BufferWriter.h:37-59 | the word's network-order bytes are laid over the contents at the position |
| `Streams.BufferWriter.WriteSigned` | network/BufferWriter.h:61-83 | the same for the two's complement of a signed word |
| `Streams.BufferWriter.WriteBytes` | network/BufferWriter.h:104-108 | bytes at the position, by the rule of the buffer's class |
| `Streams.BufferWriter.WriteString` | network/BufferWriter.h:97-102 | a uint32 length and the bytes |
| `Streams.BufferWriter.Shrink` | network/BufferWriter.h:26-30 | the position moves, the contents do not; the writer stays at the end iff it moves by nothing |
| `Streams.BufferReader.ReadUnsigned` | network/BufferReader.h:37-91 | the word whose network-order bytes come next |
| `Streams.BufferReader.ReadSigned` | network/BufferReader.h:93-147 | its two's complement |
| `Streams.BufferReader.ReadBytes` | network/BufferReader.h:192-197 | the next bytes, or null; the position moves either way |
| `Streams.BufferReader.BytesLeft` | network/BufferReader.h:27-30 | the number of bytes read, which is the number left iff the reader is half-way |
| `Messages.ConversionIdentity` | engine/PacketHandlers.cpp:46-62 | a packed message converts back to itself iff the creator registered under its id makes messages of its class |
| `Messages.OnMessageConvert` | engine/PacketHandlers.cpp:46-62 | a plain message is passed through; a packed one becomes the created message with the decoded fields, or null iff the id is unknown or its creator returns null |
| `Messages.SendAndConvert` | engine/PacketHandlers.cpp:46-62 | packing, sending the packed bytes on and converting gives the message, for every class and all field contents |
| `Messages.ReadsRestHalfway` | engine/Messages.cpp:55-59 | reading a packed message takes the rest of the buffer iff the reader is half-way |
| `Messages.SerializeMessage.Of` | engine/Messages.cpp:44-48 | the buffer holds exactly the message's encoding |
| `Messages.SerializeMessage.constructor` | engine/Messages.cpp:50-53 | the buffer holds the given bytes |
| `Messages.SerializeMessage.Write` | engine/Messages.cpp:61-64 | the packed bytes are passed on as they are |
| `Messages.SerializeMessage.Read` | engine/Messages.cpp:55-59 | takes as many bytes as the reader has read already |
| `Messages.MessageFactory.RegisterMessage` | engine/Messages.cpp:11-20 | a new id gets its creator, all others keep theirs |
| `Messages.MessageFactory.Create` | engine/Messages.cpp:22-32 | what the creator returns, or null for an unknown id |
| `TestMessages.TestMessageTyped` | test/TestMessage.cpp:9-17 | any contents of the concrete message are a value of its type, its map and set listed in key order |
| `TestMessages.TestMessageBytes` | test/TestMessage.cpp:14-17 | every byte of a packed message: fields in order, containers behind their sizes, map and set in ascending key order |
| `TestMessages.AsValueInjective` | test/TestMessage.h:29-35 | that value determines all contents, map and set included |
| `TestMessages.TestMessageIdentity` | test/TestMessage.cpp:9-17 | packing and converting the concrete message gives back exactly its contents |
| `Monitor.CounterExact` | network/Buffer.h:23-64 | the counter is the sum of the live capacities iff each is below 2^31 |
| `Monitor.CountedShort` | network/Buffer.h:10-11 | each capacity of 2^31 or more is counted 2^32 short |
| `Monitor.BufferMonitor.Conservation` | network/Buffer.h:23-174 | the same of the counter after any construction, copy, assignment, swap, growth and destruction |
| `Monitor.BufferMonitor.New` | network/Buffer.h:23-28 | construction adds the capacity |
| `Monitor.BufferMonitor.Copy` | network/Buffer.h:39-49 | copying adds it once more |
| `Monitor.BufferMonitor.Assign` | network/Buffer.h:51-67 | assignment replaces one capacity, self-assignment none |
| `Monitor.BufferMonitor.Swap` | network/Buffer.h:69-82 | swapping leaves the counter alone |
| `Monitor.BufferMonitor.Ensure` | network/Buffer.h:149-174 | growth replaces the old capacity by the new |
| `Monitor.BufferMonitor.Destroy` | network/Buffer.h:30-37 | destruction removes it |
| `Framing.Reassembly` | engine/InnerProtocol.h:15-17 | for every sequence of packets and every way to cut their frames into chunks exactly the deliverable packets are dispatched, in order, and nothing is left over (defined in InnerProtocol.cpp, lines 31-175) |
| `Framing.ReceiveIsParseAll` | engine/InnerProtocol.h:15 | however a stream of any bytes is cut, the receiver ends where it would with all of it at once (defined in InnerProtocol.cpp, lines 88-175) |
| `Framing.ParseStream` | engine/InnerProtocol.h:15-17 | a stream of frames is taken apart into the packets it was made of (defined in InnerProtocol.cpp, lines 31-175) |
| `Framing.PartialFrameWaits` | engine/InnerProtocol.h:15 | behind any frames, a frame that is not complete waits untouched (defined in InnerProtocol.cpp, lines 88-175) |
| `Framing.UnknownTypeEnds` | engine/InnerProtocol.h:15 | behind any frames, a complete block of an unknown type ends the stream (defined in InnerProtocol.cpp, lines 88-175) |
| `Framing.ArrivesUnchanged` | engine/InnerProtocol.h:15-17 | a packet arrives as sent iff it has a command or a callback, is no heartbeat, carries no error with a command, and its message has bytes (defined in InnerProtocol.cpp, lines 48-160) |
| `Framing.FrameBytes` | engine/InnerProtocol.h:17 | every byte of the three kinds of frames: type, size of the whole, command or callback id, callback id or error, message (defined in InnerProtocol.cpp, lines 31-86) |
| `Framing.HeartsArrive` | engine/Messages.h:7-12 | the heartbeats found in a stream are those sent (handled in InnerProtocol.cpp, lines 159-161) |
| `InnerProtocols.OnSerialize` | engine/InnerProtocol.h:17 | the buffer holds exactly the packet's frame (defined in InnerProtocol.cpp, lines 31-86) |
| `InnerProtocols.InnerProtocol.OnUnserialize` | engine/InnerProtocol.h:15 | the loop over the ring buffer dispatches what parsing its contents gives, leaves what is not yet a frame, and restarts the heartbeat count iff a heartbeat is among it (defined in InnerProtocol.cpp, lines 88-175) |
| `InnerProtocols.InputSide.HandleTcpConRead` | network/Network.h:68 | after every chunk the connection has dispatched what the received stream contains (defined in TCP_Network.cpp, lines 74-127) |
| `InnerProtocols.InputSide.Dispatches` | network/Network.h:68 | when the chunks are the frames of some packets, exactly these have been dispatched and the connection is open and empty (defined in TCP_Network.cpp, lines 74-127) |
| `RingBuffers.RingBuffer.Write` | network/RingBuffer.h:20 | appends to the queue, around the end of the array and through growth (defined in RingBuffer.cpp, lines 28-57) |
| `RingBuffers.RingBuffer.Read` | network/RingBuffer.h:22 | gives and removes the oldest bytes (defined in RingBuffer.cpp, lines 59-90) |
| `RingBuffers.RingBuffer.Look` | network/RingBuffer.h:28 | gives the oldest bytes (defined in RingBuffer.cpp, lines 137-162) |
| `RingBuffers.RingBuffer.ReadConfirm` | network/RingBuffer.h:26 | removes the oldest bytes (defined in RingBuffer.cpp, lines 110-135) |
| `RingBuffers.RingBuffer.WriteConfirm` | network/RingBuffer.h:24 | the bytes stored behind the queue belong to it (defined in RingBuffer.cpp, lines 92-108) |
| `RingBuffers.RingBuffer.GetWriteableVec` | network/RingBuffer.h:30 | the free places behind the queue, but for one when they go around the end (defined in RingBuffer.cpp, lines 164-195) |
| `RingBuffers.RingBuffer.GetReadableVec` | network/RingBuffer.h:32 | two spans that together are the queue (defined in RingBuffer.cpp, lines 197-220) |
| `RingBuffers.RingBuffer.TryShrink` | network/RingBuffer.h:46 | only an empty queue above the bound gives memory back (defined in RingBuffer.cpp, lines 231-237) |
| `Sending.SendKeepsOrder` | network/Network.h:73 | `tcpSend` appends its data to the stream, for all data of given lengths, iff the socket takes some and nothing is pending (defined in TCP_Network.cpp, lines 249-290) |
| `Sending.FlushKeepsStream` | network/Network.h:69 | the write callback never changes the stream (defined in TCP_Network.cpp, lines 129-169) |
| `Sending.FlushMoves` | network/Network.h:69 | it moves exactly what `writev` took from the front of what waits to the wire (defined in TCP_Network.cpp, lines 129-169) |
| `Sending.FlushDrains` | network/Network.h:69 | once as much was taken as waited, the wire holds the whole stream and nothing waits |
| `Sending.OutputSide.TcpSend` | network/Network.h:73 | what the socket took and what waits; write events are asked for iff something waits (defined in TCP_Network.cpp, lines 249-290) |
| `Sending.OutputSide.HandleTcpConWrite` | network/Network.h:69 | what was sent leaves the buffer; the write bit goes with the last of it (defined in TCP_Network.cpp, lines 129-169) |
| `Poller.KernelAgreement` | network/EPoller.cpp:79-123 | in every run a socket is in the kernel's table iff its object's mask is not zero and the socket is valid, under that mask and key; the kernel refuses a call iff the socket is invalid or it deregisters an object without a mask |
| `Poller.TableFollowsCalls` | network/EPoller.cpp:79-123 | in every run the kernel watches a valid socket for reading (writing) iff the last call on its object about that, with each `deregister` turning it round, leaves it asked for |
| `Poller.MaskFollowsCalls` | network/Poller.cpp:5-28 | the object's mask has exactly those bits |
| `Poller.RegisterSetsBits` | network/Poller.cpp:5-13 | registering a handler sets its bit and leaves the other, whatever the mask |
| `Poller.StepKeeps` | network/EPoller.cpp:79-123 | every call on every mask and socket keeps table and masks in step |
| `Poller.InTableIffMasked` | network/EPoller.cpp:95-111 | mask and socket alone tell whether ADD or MOD is right |
| `Poller.InvalidSocketLeavesMask` | network/EPoller.cpp:103-111 | registering an object without a socket leaves it the write bit and the table as it was, until it is deregistered (defined in TCP_Network.cpp, lines 294-337) |
| `Poller.DeregisterClearsSetBits` | network/Poller.cpp:15-23 | deregistering a handler clears its bit iff it is set, and leaves the other |
| `Poller.DeregisterCanRegister` | network/Poller.cpp:20-23 | deregistering a clear write bit on a valid socket does what registering it does, whatever the mask (the caller is in TCP_Network.cpp, lines 279-283) |
| `Poller.EPoller.UpdateObject` | network/EPoller.cpp:79-112 | mask, table and success of the command that the masks select; the mask changes even when the kernel refuses an invalid socket |
| `Poller.EPoller.RemoveObject` | network/EPoller.cpp:114-123 | the mask is cleared and the socket leaves the table, if it is valid and was in it |
| `Poller.EPoller.RegisterReadHandler` | network/Poller.cpp:5-8 | the read bit is set and the write bit as before, in the mask and in what the kernel is told |
| `Poller.EPoller.RegisterWriteHandler` | network/Poller.cpp:10-13 | the write bit is set and the read bit as before |
| `Poller.EPoller.DeregisterReadHandler` | network/Poller.cpp:15-18 | the read bit is toggled and the write bit as before |
| `Poller.EPoller.DeregisterWriteHandler` | network/Poller.cpp:20-23 | the write bit is toggled and the read bit as before |
| `Poller.EPoller.Deregister` | network/Poller.cpp:25-28 | nothing is asked for any more |
| `Dispatch.BatchIsProper` | network/EPoller.cpp:39-77 | for any batch and any callbacks, a chain of callbacks starts only on the object in the table under the event's exact key at that moment, each is invoked only if asked for at that moment, and a read is followed by the write iff the view it left behind still asks for that |
| `Dispatch.BatchIsComplete` | network/EPoller.cpp:39-77 | over any batch and any callbacks: an error leads to the error callback; any other event with EPOLLIN or EPOLLHUP to the read and with EPOLLOUT or EPOLLHUP to the write callback iff, in the state the earlier callbacks left, the key is in the table, the mask has the bit and the callback is set; the write callback in the state the read callback left |
| `Dispatch.BatchIsLive` | network/EPoller.cpp:39-77 | if callbacks deregister what they remove, no callback is ever invoked on an object that has left the table |
| `Dispatch.Batch.Poll` | network/EPoller.cpp:39-77 | the loop makes the invocations of the specification, so every event of the batch leads to just those callbacks |
| `Dispatch.Batch.PollOne` | network/EPoller.cpp:44-75 | so does its body, which skips a read or write callback that is not set |
| `Network.ObjectTable.AddObject` | network/Network.cpp:101-108 | with at most one live key per index the slots stand for a plain map, which gains the object |
| `Network.ObjectTable.RemoveObject` | network/Network.cpp:110-118 | the map loses the key |
| `Network.ObjectTable.GetObject` | network/Network.cpp:120-129 | the map's object under the key, never a later occupant of its slot |
| `Network.ObjectTable.IsEmpty` | network/Network.cpp:131-137 | true iff the map is empty |

## Left out

- The key pool, queues, timers, object pools and the resource monitor's class, which are in `core/`: that directory is not part of this model. An index is an uninterpreted function of a key, and uids come from the environment.
- Sockets, epoll, fcntl, addresses, threads, logging and signals: the kernel's table is a map, a link a pair of queues, the result of a system call a parameter.
- Reuse of a uid while some table still holds it: the environment is assumed not to do that.
- `confirmListen` and `confirmConnect` wait for an event; here confirmation is an atomic success or failure (engine/IOEngine.cpp:56-137).
- The 4 seconds before a failed connect is tried again under the same uid (TCP_Network.cpp, lines 313-340): a failed report changes nothing at the engine, and the next try is a new link for that uid, at any later time.
- Host, port and protocol of a node, and subclasses that override `onNodeConnect` and `onNodeDisConnect`: the callbacks are a log.
- Callbacks that call back into the engine from `onNodeConnect`: they happen between steps.
- Packets with callback ids, timeouts and heartbeats in `IOEngine`: none of them is part of the handshake.
- Floats and doubles, `printString`, `tostirng`, and exceptions inside `pack` and `unpack`.
- Payloads that end too early: the readers assert there, so reading methods require what they need; the decoding functions give no value.
- Frames whose size cannot hold their header or identity: the source reads past them; here they end the stream like an unknown type.
- Writes beyond 4 GiB, where `pos + size` wraps in a uint32: writing methods require that it does not.
- Containers of 2^31 elements or more, whose length does not survive the cast to int32.
- Restrictions of C++ name lookup on nesting containers: every nesting of the universe is modelled. User structs as keys are taken to be ordered field by field.
- `Buffer::operator=` has no return statement at the end; the model returns nothing.
- The constructor of `StackBuffer` from bytes, which never sets the size, and that class's copy, assignment and monitor counters.
- `CEndPoint::writev` is given the number of bytes as the number of spans (network/TCP_Network.cpp:148): the model takes the kernel's answer as a parameter.
- Connections being closed: states, the closing timers and the half-closed socket of network/TCP_Network.cpp:343-480.
- `getGroupObject`, `_clear`, `onQuit` and shutdown.
- The app, the engine loop, protocol notifications, test programs and build files, which only pass things on.
- `Serializes.Serialize`: structs and containers nested in values are one recursive method here and many overloads in the source.
- An error callback that is not set: the source asserts that it is (network/EPoller.cpp:58).
- `Dispatch.Batch.Poll`: the table is the plain map that the slots of `Network` are proved to stand for.
- `Poller.KernelAgreement`: a socket is not closed or replaced while its object has a mask, and objects do not share sockets.
