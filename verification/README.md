# A verified model of ign-transport

ign-transport is a brokerless publish/subscribe and service-call library. Processes find each other
with a discovery protocol over multicast UDP; the protocol fills two address tables in each process,
and service calls are routed with what the tables say. This project models that machinery in Dafny and
proves what it keeps, from the nested maps up to whole runs of many processes.

The development has three layers.

* **The objects**, in the form the source has them: `TopicStorage.Storage` and `HandlerStorage.Storage`
  (nested maps updated in place), the message classes of `Packet` (packing into a char buffer at a moving
  offset), `Discovery.Discovery`, `NodeShared.ReqHandler`, `NodeShared.NodeShared` and `Node.Node`. Every
  method is proved against a specification function of the old state.
* **The specifications**: flat relations for the two storages (`TopicTable`, `HandlerStorage.Flat`), the
  wire format as printer and parser (`Wire`, `Messages`), one process of the protocol as a state machine
  (`Protocol`), one network of service calls (`Requests`), all the nodes of one process on the stores
  they share (`OneProcess`), names (`TopicNames`). What these functions mean is said without them, in terms of
  rows, messages, callbacks and chars: `StepMeaning` for a step of discovery, `CallMeaning` for a call of a node,
  `Frames` for service messages, `Layout` for datagrams, `TopicNames.AcceptedIff` and `TopicNames.NameOfBare` for
  names.
* **The theorems about runs**: any number of processes over a network that loses, duplicates and reorders
  (`Network`), the same with real bytes (`ByteNetwork`), a FIFO link between two processes (`Agreement`),
  repair by heartbeat (`Repair`), timing (`Timing`), service calls end to end (`Requests`), discovery
  and service calls of one process together (`Matching`), any number of nodes that come, call and go
  in one process (`OneProcess`), and any number of such processes on one network (`ServiceNetwork`).

`dafny verify dfyconfig.toml` checks everything. Iterating a `std::map` is modelled by
`Ordering.Keys`, the keys in lexicographic order; a pointer into a buffer by an array and an offset, null
by the null array; a mutex-protected method by one atomic step. A callback that discovery executes is
returned as an event, a datagram or request that is sent is returned as a value, and what arrives from
the network, the clock and `Uuid()` are parameters.

## Where the code and its comments differ, and what else the proofs turned up

The model follows the code.

* `TopicStorage::DelAddressesByProc` answers for the last topic visited only (src/TopicStorage.cc:183).
  `TopicStorage.DelAddressesByProcReport` says on exactly which tables the answer is right, and
  `TopicStorage.DelAddressesByProcMisreports` is a table on which it is wrong.
* `HandlerStorage::RemoveHandler` answers true only when the node's last handler goes
  (include/ignition/transport/HandlerStorage.hh:162-180).
* `HandlerStorage::AddHandler` inserts, so a handler already stored under the UUID stays
  (include/ignition/transport/HandlerStorage.hh:114-129).
* `Discovery::SendMsg` does not look at what `Pack` returned: a message with an empty required field goes
  out as a zero-filled buffer, and `Messages.ParseDatagram` says what a receiver makes of it
  (src/Discovery.cc:791-859).
* `RunActivityTask` calls the disconnection callback without asking whether there is one
  (src/Discovery.cc:467). Without one, std::function throws out of the thread function with the mutex
  locked, so the process terminates; the model gives the state at the throw, the rows gone and the
  activity entry not.
* `Node::UnadvertiseSrv` unadvertises a *message* topic (src/Node.cc:375): the service table is never
  cleaned, not even by the destructor, and a message topic of the same name is withdrawn.
* Because the service row stays, the process can be the responder it finds for a service nobody in it
  offers any more: the request is addressed to its own replier, to which nothing connects it
  (src/NodeShared.cc:119, 787), the failed send is swallowed (src/NodeShared.cc:620), the request is marked
  as requested, and no responder that shows up later triggers it again. `OneProcess.ResponderIsSelf` and
  `OneProcess.AskedOfSelfIff` say exactly when that happens, `OneProcess.NeverSentAgain` that it is final.
* Heartbeats spread the stale row to other processes, and nobody ever sends an UNADV for a service: a
  process goes on addressing requests to the first process it knew, although no replier is left there and
  others serve the topic, until that one says BYE or expires or a smaller UUID shows up
  (`ServiceNetwork.StaysAddressed`, `ServiceNetwork.WithdrawnShadows`).
* A heartbeat adds rows and removes none, so a row whose UNADV was lost stays until a BYE or expiry
  (`Repair.HeartbeatRestoresIff`, `Repair.RowGoesIff`).
* `Node::Advertise` takes a scope with each call and compares it with none (src/Node.cc:119-142), and a
  known address keeps its old scope (src/TopicStorage.cc:35-50): advertising first with Process and then
  with All sends an ADV for a row the process keeps to itself. `Agreement.ScopeChangeBreaks` is this run,
  and `Agreement.AgreementExact` says exactly which calls keep two processes in agreement.
* `Node::GetTopicList` compares the partition of a name, without its front slash, with the node's
  partition as it was given (src/Node.cc:392-400): a node whose partition was given with a slash at
  either end lists nothing (`TopicNames.ListedIff`, `TopicNames.OwnTopicNotListed`).
* `Discovery::Advertise` executes no connection callback, so a request made before its service is advertised
  in the same process is not sent then (`Matching.OwnServiceStrands`).
* `Node::Unsubscribe` answers false, its work done, when nobody publishes the topic (src/Node.cc:289-293).

## Model

| member | source | states |
|---|---|---|
| Network.NoFabrication | src/Discovery.cc:595-788 | In every run of any number of processes over a network that loses, duplicates and reorders, each row anybody holds under p equals, in every field and in the right table, one that p itself advertised. |
| Network.ScopeConfinement | src/Discovery.cc:629-634 | No process ever holds another's row with scope Process, and a remote row with scope Host only if the two processes have the same host address, although heartbeats re-send every scope. |
| Network.ActivityCoverage | src/Discovery.cc:606-613 | In every reachable system each remote process with a row in either table has an activity entry, and no process has one for itself. |
| Network.SentTruthful | src/Discovery.cc:225-336 | Whatever step a process takes, it sends messages under its own UUID only, and advertises only what it is advertising now or holds as its own. |
| Network.OwnAdvertisementsAre | src/Discovery.cc:498-520 | A heartbeat batch re-advertises exactly the process's own rows: all of them, whatever their scope, and no others. |
| Network.StepRows | src/Discovery.cc:225-788 | A row held after any step was held before, is the process's own and advertised just now, or came with an ADV from its process that passed the scope check. |
| StepMeaning.AdvTaken | src/Discovery.cc:629-661 | A received ADV makes its row known iff it was already or the scope is not Process and, if it is Host, the source address is this host's; it is then put behind the other rows of the vector, and nothing else happens to it. |
| StepMeaning.UnadvTaken | src/Discovery.cc:750-781 | A received UNADV takes exactly the rows of its node, under the same condition on the scope. |
| StepMeaning.AdvReported | src/Discovery.cc:654-661 | The connection callback of the kind is executed, once and with the fields of the row, iff it is set, the row is new and its scope lets it be seen. |
| StepMeaning.UnadvReported | src/Discovery.cc:762-771 | The disconnection callback of the kind is executed, once, iff it is set and the scope lets it be seen, whatever is stored. |
| StepMeaning.ByeReported | src/Discovery.cc:714-736 | A BYE executes each disconnection callback that is set, once, with neither topic nor address. |
| StepMeaning.ReceivedQuietly | src/Discovery.cc:595-788 | An own datagram does nothing, a SUB, a HEARTBEAT or an unknown type executes no callback, and only a SUB is answered. |
| StepMeaning.AdvertiseSends | src/Discovery.cc:244-250 | Advertise sends one ADV with the caller's fields, and none for scope Process. |
| StepMeaning.UnadvertiseSends | src/Discovery.cc:270-285 | Unadvertise sends one UNADV with the node's first row, and none if that has scope Process. |
| StepMeaning.FirstIs | src/TopicStorage.cc:94-124 | The row looked up for a node is the one with no other of that node in front of it. |
| StepMeaning.ExitSends | src/Discovery.cc:211-213 | The destructor's step sends one BYE and nothing else. |
| StepMeaning.SubAnswered | src/Discovery.cc:684-705 | A SUB is answered with one ADV for each own row of the topic whose scope is not Process and, if it is Host, whose requester is on this host, in the order of the rows. |
| StepMeaning.SubAnswersRow | src/Discovery.cc:684-705 | So an ADV is among the answers iff its row is an own one that the requester may see. |
| StepMeaning.DiscoverSends | src/Discovery.cc:300-312 | Discover sends exactly one SUB, changes nothing, and without its callback reports nothing. |
| StepMeaning.DiscoverReports | src/Discovery.cc:314-335 | With the callback it reports every known row of the topic once, processes in increasing order and rows in the order of their vector. |
| StepMeaning.DiscoverReportsRow | src/Discovery.cc:314-335 | So an event is among them iff the callback of the kind is set and it is a connection with a known row of the topic. |
| StepMeaning.HeartbeatSends | src/Discovery.cc:490-521 | A heartbeat is a HEARTBEAT, then one ADV for each own row, message topics before services, topics in increasing order. |
| StepMeaning.SubCovers | src/Discovery.cc:662-707 | A SUB and its answers, in any order and with duplicates, leave the requester knowing every complete row of the topic it may see. |
| StepMeaning.AdvDelivered | src/Discovery.cc:617-661 | The converse of scope confinement: in every run an ADV of a complete row that is delivered makes its row known iff it was already or the scope is not Process and, if it is Host, the two processes have the same host address. |
| StepMeaning.UnadvDelivered | src/Discovery.cc:738-781 | In every run an UNADV that is delivered takes exactly the rows of its node, under the same condition. |
| StepMeaning.AdvertisedIsFound | src/Discovery.cc:225-661 | After any run, a process that advertises is found by every process that gets the ADV and may see it. |
| StepMeaning.AdvertisedIsFoundOnTheWire | src/Discovery.cc:567-859 | The same for the datagram SendMsg builds, whatever the receive buffer holds behind it. |
| Agreement.AgreementTheorem | src/Discovery.cc:225-287 | On a lossless FIFO link without expiry, if each Advertise and Unadvertise of p is one that keeps agreement, applying the datagrams still queued from p to what q holds for p gives exactly p's own rows visible to q, in order and in every field, after any run of both, whatever others send them; with an empty queue q holds exactly those. |
| Agreement.AgreementExact | src/Discovery.cc:225-287 | The condition is exact: after any such run the next call of p keeps agreement iff its scope hides it from q, or the row is new and complete, or it is known and q can see the row that is there or Pack refuses; an Unadvertise iff the row it sends is visible and complete or q sees no row of the node. |
| Agreement.SenderAgreesIff | src/Discovery.cc:225-287 | The same from every state in agreement, for every step p can take. |
| Agreement.PolicySuffices | src/Node.cc:119-142 | A caller that sticks to one scope per node and topic, with complete addresses, makes only such calls. |
| Agreement.ScopeChangeBreaks | src/Node.cc:119-142 | Nothing makes a caller do so: the same address advertised first with Process and then with All breaks agreement at the second call, from every start. |
| Agreement.UnadvertiseTells | src/Discovery.cc:255-287 | What Unadvertise sends makes a receiver's rows follow the sender's visible rows exactly. |
| Agreement.OtherTells | src/Discovery.cc:490-520 | Heartbeats, answers, requests and passes tell a receiver nothing it does not know. |
| Repair.HeartbeatCovers | src/Discovery.cc:490-521 | Whatever was lost, one whole heartbeat batch, in any order and with duplicates, leaves the peer knowing every row of the sender it may see, by topic, address and node. |
| Repair.HeartbeatRestores | src/Discovery.cc:490-521 | If the peer held only rows of the sender before, it then holds exactly those it may see, in every field. |
| Repair.HeartbeatRestoresIff | src/Discovery.cc:490-521 | And only then: after a batch the peer holds exactly the rows it may see iff it held none but such rows before. |
| Repair.LostUnadvStays | src/Discovery.cc:490-521 | A row whose UNADV was lost survives every later batch of its process, although it is not owed any more. |
| Repair.RowGoesIff | src/Discovery.cc:443-788 | One step of a process takes a row of another away iff it is an UNADV of that node and topic that passes the scope check, a BYE, or a pass that finds the process expired (without a callback: expired first). |
| Repair.RowStays | src/Discovery.cc:443-788 | So over any run without such a step a row once held is still held, whatever heartbeats and answers arrive. |
| Repair.SecondHeartbeatIdle | src/Discovery.cc:490-521 | A second batch changes neither table. |
| Timing.ActivityIs | src/Discovery.cc:443-475 | Over every run, when exactly a peer is remembered: iff some datagram of it, not a BYE, is its last and no later pass finds that one too old; and the time stored is that datagram's. |
| Timing.KeepAlive | src/Discovery.cc:449-474 | With or without a disconnection callback, a peer from which some datagram came less than silence + 1 ms before every pass stays in the activity map, and no pass takes a row of it. |
| Timing.SilentIsForgotten | src/Discovery.cc:449-474 | One pass silence + 1 ms or more after the last datagram of a peer removes it from the activity map and all its rows from both tables. |
| Timing.ForgottenInTime | src/Discovery.cc:443-487 | With a pass every activity interval, a silent peer is gone from both after silence + 1 ms + one interval. |
| Timing.NotForgottenEarly | src/Discovery.cc:455-459 | The bound is tight: without a BYE a peer stays exactly as long as no pass comes silence + 1 ms after its last datagram. |
| Protocol.ActivityPass | src/Discovery.cc:450-474 | A pass with the callback set leaves exactly the processes not past the silence interval, drops every row of the others and no other row, and makes one disconnection call for each of them. |
| Protocol.ActivityOverThrows | src/Discovery.cc:461-470 | Without the callback the pass touches only rows of expired processes and no activity entry, and makes no call. |
| Protocol.ActivityOverStops | src/Discovery.cc:461-470 | Without the callback exactly the rows of the first expired process in key order go, and no others. |
| Protocol.RunKeepsInv | src/Discovery.cc:595-788 | Over every run of one process in any environment the tables stay canonical and every remote process with a row has an activity entry, the process itself none. |
| Protocol.LocalAdvertisementsStable | src/Discovery.cc:608-610 | After any run a process's own rows are those its own Advertise and Unadvertise calls alone would have made. |
| Protocol.ReceiveVec | src/Discovery.cc:595-788 | A received message changes only the rows of its sender, by exactly its effect, and the activity entry of its sender. |
| ByteNetwork.BytesRefineMessages | src/Discovery.cc:567-859 | Every run of processes that exchange real datagrams, parsed out of buffers with arbitrary chars behind them, is, action by action and with the same calls, a run of the abstract protocol. |
| ByteNetwork.NoFabricationOnTheWire | src/Discovery.cc:567-859 | So in every byte-level run a row held under p was advertised by p with exactly these fields, and scopes confine. |
| Messages.ParseDatagram | src/Discovery.cc:791-859 | A datagram built by SendMsg, followed by anything, parses to the message, or, where Pack refused, to the blank message a receiver then sees. |
| Messages.DatagramInjective | src/Discovery.cc:791-859 | Complete messages have different datagrams, whatever follows them in the buffer. |
| Layout.BareLayout | src/Packet.cc:94-133 | Char by char: HEARTBEAT and BYE are version 1 in two bytes, the UUID behind its length in eight, the type byte 4 or 5, and two zero bytes, all low byte first. |
| Layout.SubLayout | src/Packet.cc:209-234 | SUB and SUB_SRV, types 2 and 7, have the topic behind that, after its length. |
| Layout.AdvLayout | src/Packet.cc:359-536 | The four advertisements, types 1, 6, 3 and 8, have topic, address, control address, node UUID, the scope byte (0 Process, 1 Host, 2 All) and the type name "not used". |
| Layout.SrvBodyLayout | src/Packet.cc:607-643 | The body of class AdvertiseSrv has the two type names instead. |
| Layout.RefusedIff | src/Packet.cc:94-674 | Pack refuses exactly a header without version, UUID or type, and a body with an empty topic, address, node UUID or type name; the control address may be empty. |
| Layout.RefusedLayout | src/Discovery.cc:791-859 | An advertisement with an empty topic, address or node UUID goes out as its header and zeros, with an empty process UUID as zeros alone. |
| Layout.RefusedSubLayout | src/Discovery.cc:791-859 | The same for a SUB with an empty topic. |
| Wire.PacketRoundTrip | src/Packet.cc:359-674 | Parsing what was printed, in front of anything, gives every field of header and body back and stops where the print ended. |
| Wire.PacketParsePrint | src/Packet.cc:136-674 | What parses prints back to the chars it was parsed from. |
| Wire.PacketPrefixFree | src/Packet.cc:359-674 | Per message class no encoding is a prefix of another, so encodings are told apart. |
| Wire.ReadHeaderOfEnc | src/Packet.cc:94-167 | Unpacking a packed header gives back version, UUID, type and flags, and the rest of the buffer. |
| Wire.ReadScopeOfEnc | src/Packet.cc:404-470 | Every scope byte comes back as it was written, those that no enumerator stands for included. |
| Packet.Header.Pack | src/Packet.cc:94-133 | Writes exactly the encoding and nothing beyond it and answers its length, or refuses an incomplete header or null buffer, writing nothing. |
| Packet.Header.Unpack | src/Packet.cc:136-167 | Reads back exactly what the parser finds, answers the header length, and on null changes nothing. |
| Packet.SubscriptionMsg.Pack | src/Packet.cc:209-234 | Writes exactly GetMsgLength chars, nothing beyond; on an empty topic only the header is written and the answer is 0. |
| Packet.SubscriptionMsg.UnpackBody | src/Packet.cc:237-257 | Reads the topic the parser finds and consumes exactly its encoding. |
| Packet.AdvertiseBase.Pack | src/Packet.cc:359-416 | Header, then the five fields; refuses when topic, address or node UUID is empty, leaving the header written. |
| Packet.AdvertiseBase.UnpackBody | src/Packet.cc:419-475 | Reads the five fields the parser finds and consumes exactly their encoding. |
| Packet.AdvertiseMsg.Pack | src/Packet.cc:510-536 | Appends the type name; an empty one leaves the common part written and answers 0. |
| Packet.AdvertiseMsg.UnpackBody | src/Packet.cc:539-557 | Reads base and type name and consumes exactly the message length minus the header. |
| Packet.AdvertiseSrv.Pack | src/Packet.cc:607-643 | Appends the two type names; an empty one leaves the common part written and answers 0. |
| Packet.AdvertiseSrv.UnpackBody | src/Packet.cc:646-674 | Reads base and both type names and consumes exactly the message length minus the header. |
| Packet.WrittenFits | src/Packet.cc:348-356 | Pack never writes past the message length, and a complete message is exactly as long as its header and body. |
| Discovery.Discovery.constructor | src/Discovery.cc:69-82 | A new object knows nobody, has the default silence interval and no callbacks. |
| Discovery.Discovery.Advertise | src/Discovery.cc:225-252 | The step of the protocol: the row is added unless known, and one ADV datagram is sent unless the scope is Process. |
| Discovery.Discovery.Unadvertise | src/Discovery.cc:255-287 | The step of the protocol: nothing without an own row of the node; else the node's rows go and one UNADV datagram with the stored address is sent unless its scope is Process. |
| Discovery.Discovery.Discover | src/Discovery.cc:290-336 | The step of the protocol, which `StepMeaning.DiscoverSends` and `StepMeaning.DiscoverReports` spell out: one SUB datagram, and one connection call per known address in key order if the callback is set. |
| Discovery.Discovery.SendMsg | src/Discovery.cc:791-859 | Sends exactly the datagram of the message, zeros where Pack refused. |
| Discovery.Discovery.RunHeartbeat | src/Discovery.cc:490-521 | Sends exactly the datagrams of one heartbeat batch, messages before services, each in key order. |
| Discovery.Discovery.RunActivity | src/Discovery.cc:443-475 | The erase-while-iterating loop is the activity pass of the protocol, and throws exactly if a process expired and no callback is set. |
| Discovery.Discovery.DispatchDiscoveryMsg | src/Discovery.cc:595-788 | On any buffer that starts with a well-formed packet: the state change, datagrams and callbacks of the protocol's Receive for the message it parses to. |
| Discovery.Discovery.OnAdvertise | src/Discovery.cc:617-661 | The step of the protocol, spelled out by `StepMeaning.AdvTaken` and `StepMeaning.AdvReported`: scope check, then AddAddress, then the callback only if the address is new. |
| Discovery.Discovery.OnUnadvertise | src/Discovery.cc:738-781 | The step of the protocol, spelled out by `StepMeaning.UnadvTaken` and `StepMeaning.UnadvReported`: scope check, then the callback whatever is stored, then the node's rows go. |
| Discovery.Discovery.OnBye | src/Discovery.cc:714-736 | Both callbacks, and the process is gone from the activity map and both tables. |
| Discovery.Discovery.OnSubscription | src/Discovery.cc:662-707 | The step of the protocol, spelled out by `StepMeaning.SubAnswered`: answers with exactly the own rows the requester may see, in order, and changes nothing. |
| Discovery.Discovery.Exit | src/Discovery.cc:211-213 | The destructor sends one BYE. |
| Discovery.HeardAlready | src/Discovery.cc:612-613 | Writing the time stamp before looking at the message is the same step as the protocol's. |
| TopicTable.InsertRows | src/TopicStorage.cc:28-57 | AddAddress is set insertion on the flat relation, keyed by topic, process, address and node. |
| TopicTable.DropNodeRows | src/TopicStorage.cc:137-171 | DelAddressByNode is a filter of the flat relation. |
| TopicTable.DropProcRows | src/TopicStorage.cc:174-191 | DelAddressesByProc is a filter of the flat relation. |
| TopicTable.DropOwnerVec | src/TopicStorage.cc:137-171 | Without one node's rows of one process every vector is the old one, in order, without them, and nothing is empty. |
| TopicTable.HasTopicMeansSomeRow | src/TopicStorage.cc:60-63 | Without empty inner containers a topic key means that some row exists. |
| TopicTable.CanonicalExtensional | src/TopicStorage.cc:28-171 | Each content has one canonical table. |
| TopicStorage.Storage.AddAddress | src/TopicStorage.cc:28-57 | Adds the row unless (address, node) is known there, answers which, and keeps the table canonical. |
| TopicStorage.Storage.HasTopic | src/TopicStorage.cc:60-63 | True iff some row of the topic exists. |
| TopicStorage.Storage.HasAnyAddresses | src/TopicStorage.cc:66-73 | True iff the process has a row of the topic. |
| TopicStorage.Storage.HasAddress | src/TopicStorage.cc:76-90 | True iff some row anywhere has the address. |
| TopicStorage.Storage.GetAddress | src/TopicStorage.cc:94-124 | The first row of the node in the vector, if any. |
| TopicStorage.AddressesMeaning | src/TopicStorage.cc:127-134 | GetAddresses answers nothing iff nobody has a row of the topic, else exactly the processes that have, no vector empty, so v.at(0) is safe. |
| TopicStorage.Storage.DelAddressByNode | src/TopicStorage.cc:137-171 | Removes exactly the node's rows there, answers whether there were any, and leaves nothing empty behind. |
| TopicStorage.Storage.DelAddressesByProc | src/TopicStorage.cc:174-191 | Removes exactly the rows of the process under every topic, erasing while iterating; answers for the last topic only. |
| TopicStorage.DelAddressesByProcReport | src/TopicStorage.cc:176-190 | The answer tells whether anything was removed iff the process has a row under the last topic or under none. |
| TopicStorage.DelAddressesByProcMisreports | src/TopicStorage.cc:183-183 | A table on which a row is removed and the answer is false. |
| TopicStorage.Storage.GetAddressesByProc | src/TopicStorage.cc:194-213 | For every topic exactly the vector of the process, and no other topics. |
| TopicStorage.Storage.GetTopicList | src/TopicStorage.cc:216-220 | Appends the topics in key order. |
| HandlerStorage.FlatAdd | include/ignition/transport/HandlerStorage.hh:114-129 | Adding in the nested maps is adding in the flat map keyed by topic, node and handler. |
| HandlerStorage.FlatRemove | include/ignition/transport/HandlerStorage.hh:162-180 | Removing a handler and whatever becomes empty is removing one flat key. |
| HandlerStorage.FlatRemoveNode | include/ignition/transport/HandlerStorage.hh:186-198 | Removing a node's handlers is a filter of the flat map. |
| HandlerStorage.WithoutOwnerAt | include/ignition/transport/HandlerStorage.hh:200-203 | Without a node's handlers under any topic the nested maps hold exactly those of the others, and nothing empty. |
| HandlerStorage.CanonicalExtensional | include/ignition/transport/HandlerStorage.hh:200-203 | With no empty inner map there is one nested form for each flat content. |
| HandlerStorage.FirstKeyUnique | include/ignition/transport/HandlerStorage.hh:74-82 | A topic has one first handler in the order of (node, handler). |
| HandlerStorage.Storage.GetHandlers | include/ignition/transport/HandlerStorage.hh:59-68 | Nothing iff no handler of the topic is stored. |
| HandlerStorage.Storage.GetFirstHandler | include/ignition/transport/HandlerStorage.hh:74-82 | Never dereferences an end iterator, and returns the handler with the least (node, handler) of the topic. |
| HandlerStorage.Storage.GetHandler | include/ignition/transport/HandlerStorage.hh:90-107 | Lookup in the flat map. |
| HandlerStorage.Storage.AddHandler | include/ignition/transport/HandlerStorage.hh:114-129 | A key that is there keeps its handler and nothing changes; one that is not gets the new one. |
| HandlerStorage.Storage.HasHandlersForTopic | include/ignition/transport/HandlerStorage.hh:135-141 | True iff the flat map has a key of the topic. |
| HandlerStorage.Storage.HasHandlersForNode | include/ignition/transport/HandlerStorage.hh:147-154 | True iff the flat map has a key of the topic and node. |
| HandlerStorage.Storage.RemoveHandler | include/ignition/transport/HandlerStorage.hh:162-180 | Removes the flat key; true iff it was there and was the node's last for the topic. |
| HandlerStorage.Storage.RemoveHandlersForNode | include/ignition/transport/HandlerStorage.hh:186-198 | Removes exactly the node's keys of the topic; true iff there were any. |
| Requests.Correlation | src/NodeShared.cc:481-543 | Over every run on a network that loses, duplicates, reorders and misroutes, what a request handler is told is what a callback registered for the handler's own topic gave for the data of the handler's own request. |
| Requests.CorrelationFunction | src/NodeShared.cc:358-543 | With callbacks that compute a function, the handler gets that function of its own request. |
| Requests.AtMostOnce | src/NodeShared.cc:546-627 | However often responders appear and responses arrive, no request is handed to the socket twice, no handler is notified twice, and only requests handed over are answered. |
| Requests.Conservation | src/NodeShared.cc:533-543 | Every handler created is in exactly one of unsent, sent and completed; the counts add up, the requests handed to the socket are those of the sent and completed, the notifications those of the completed. |
| Requests.CreatedByRequest | include/ignition/transport/Node.hh:372-381 | Every handler comes from a Request call of its process, with its key and data. |
| Requests.StepInv | src/NodeShared.cc:358-627 | Every step keeps: a pending handler is marked as requested iff a request for it went out, a handler that is gone was sent and notified, and every response and notification stems from a callback run for that request. |
| Matching.NoRequestWaits | src/NodeShared.cc:766-799 | Discovery and service calls together: in every run, whatever is received and called in whatever order, no request stays unsent while discovery knows a responder in another process. |
| Matching.WaitsForOwnService | src/Discovery.cc:225-252 | An unsent request has a known responder exactly if the process itself advertises the service. |
| Matching.OwnServiceStrands | src/Discovery.cc:239-243 | It happens whenever the service is advertised in the process after the request was made, for Advertise executes no callback. |
| Matching.NewResponderCalls | src/Discovery.cc:651-661 | The first row of another process for a service comes with a connection callback, whichever step adds it. |
| NodeShared.ReqHandler.NotifyResult | include/ignition/transport/ReqHandler.hh:213-237 | With a callback it is run with the stripped name and the answer is not kept; without one the answer is left in the handler; either way it becomes available. |
| NodeShared.NodeShared.constructor | src/NodeShared.cc:54-155 | Nothing pending, no replier, and all four discovery callbacks registered. |
| Frames.RunHome | src/NodeShared.cc:438-461 | In every run each request carries the return address of the process that created its handler, and each response is addressed to it. |
| Frames.AnswerArrives | src/NodeShared.cc:358-543 | After any run, a request that is still waited for, delivered to a process with a replier of its topic, and the response delivered back, end it: the handler is told what the callback gave for its data. |
| Frames.BatchFrames | src/NodeShared.cc:584-619 | Each frame of a batch is addressed to the control identity of the responder and carries topic, return address, node, request UUID and data of its handler. |
| NodeShared.NodeShared.SendPendingRemoteReqs | src/NodeShared.cc:546-627 | With a responder known, sends exactly the requests of the topic not sent yet, once each, in the order of the nested loops, and marks them; each frame goes to the control identity of the first row of the first process, with this process's requester address, where it takes responses, and names and data of the handler; otherwise does nothing. |
| NodeShared.NodeShared.RecvSrvRequest | src/NodeShared.cc:358-478 | Runs the first replier of the topic and answers to where the request says, with topic, node and request UUID unchanged, what the callback gave, and its result as "1" or "0"; without a replier does nothing. |
| NodeShared.NodeShared.RecvSrvResponse | src/NodeShared.cc:481-543 | Notifies exactly the handler named by topic, node and request UUID and removes it; every other handler is untouched, and an unknown name changes nothing at all. |
| NodeShared.NodeShared.OnNewSrvConnection | src/NodeShared.cc:766-799 | Remembers the address and sends what is pending on the topic. |
| NodeShared.NodeShared.OnNewSrvDisconnection | src/NodeShared.cc:802-823 | Forgets exactly the address. |
| NodeShared.NodeShared.Request | include/ignition/transport/Node.hh:333-397 | With a replier in the process, its answer and no change; else a new handler is stored, with a callback iff the caller gave one, and sent with all else pending on the topic if a responder is known, or a SUB is sent if not; the handlers stored before stay as they were but for being marked as requested. |
| NodeShared.NodeShared.ConnectionIsStep | src/NodeShared.cc:546-627 | Bridge, by definition of the step: what SendPendingRemoteReqs does is the step of the network in `Requests`. |
| NodeShared.NodeShared.RequestIsStep | include/ignition/transport/Node.hh:372-393 | Bridge, by definition of the step: what Request does behind a new handler is the step of the network in `Requests`. |
| NodeShared.ServingIsStep | src/NodeShared.cc:412-461 | What RecvSrvRequest does is a step of the network in `Requests`. |
| NodeShared.ResponseIsStep | src/NodeShared.cc:529-543 | What RecvSrvResponse does to the pending handlers is the step of the network in `Requests`, which notes exactly one notification if the name is pending and none if not. |
| NodeShared.ToldIsNoted | src/NodeShared.cc:533-543 | Bridge, by definition: what the named handler is told, or keeps, is the notification the network notes. |
| TopicNames.GetFullyQualifiedName | src/TopicUtils.cc:57-102 | Editing the three strings in place gives the full name, partition and absolute name, or rejects and leaves the out-parameter as it was. |
| TopicNames.AcceptedIff | src/TopicUtils.cc:25-66 | Accepted is exactly: no '~', no space, no '@', no two slashes in a row and not "/" in any of the three, and a topic that is not empty; slashes at the ends are fine. |
| TopicNames.NameOfBare | src/TopicUtils.cc:57-102 | The name given by any three accepted strings, from the characters alone: a slash at either end of partition or namespace or behind the topic makes no difference, one in front of the topic leaves the namespace out. |
| TopicNames.NameShape | src/TopicUtils.cc:57-102 | Every accepted triple gives @P@N with exactly two '@', P empty or led by '/' without a trailing one, N led by '/' without a trailing or a double one. |
| TopicNames.SplitJoin | src/Node.cc:392-403 | Splitting at the last '@' recovers partition and name. |
| TopicNames.NamesEqual | src/TopicUtils.cc:69-99 | Two full names are equal iff the partitions, up to the slashes at their ends, and the absolute names are. |
| TopicNames.Requalify | src/Node.cc:145-184 | A stripped name qualified again with the same partition and any namespace is the name it was stripped from. |
| TopicNames.RelativeIsAbsolute | src/TopicUtils.cc:91-96 | A relative topic names the same as the absolute one that spells its namespace out. |
| TopicNames.ListedIff | src/Node.cc:389-400 | A node lists a name iff its own partition has no slash at either end and equals the name's up to slashes. |
| TopicNames.OwnTopicNotListed | src/Node.cc:389-400 | With partition "/p" a node does not list its own topic. |
| Node.Node.constructor | src/Node.cc:66-88 | Invalid partition and namespace fall back to the defaults, and the node owns nothing. |
| Node.Node.Advertise | src/Node.cc:119-142 | Keeps the full name; discovery then knows a row of this node for it, a new one naming this process's publisher and control address and the caller's scope, and unless that is Process exactly its ADV goes out; an invalid name changes nothing; every other node stays valid, as after each of the calls below. |
| Node.Node.Unadvertise | src/Node.cc:162-184 | Forgets the full name; exactly the node's message rows of it go, and the UNADV of the first of them goes out unless its scope is Process. |
| Node.Node.Subscribe | include/ignition/transport/Node.hh:101-138 | Stores the callback under the full name and this node, keeps the name, sends one SUB for it, and has every known publisher of it reported. |
| Node.Node.Unsubscribe | src/Node.cc:261-294 | Drops exactly this node's callbacks and the name, the filter iff nobody in the process is left, and answers whether a publisher is known. |
| Node.Node.AdvertiseSrv | include/ignition/transport/Node.hh:214-256 | Stores the replier under the full name; discovery then knows a service row of this node for it, a new one naming this process's replier, its identity and the caller's scope, and unless that is Process exactly its ADV goes out. |
| Node.Node.UnadvertiseSrv | src/Node.cc:353-379 | Drops exactly this node's repliers and the name, takes the node's message rows of that name with their UNADV, and leaves the service table as it is. |
| Node.WithdrawnService | src/Node.cc:374-376 | The service table never changes, and discovery changes at all iff the node advertises a message topic of that name. |
| Node.Node.Request | include/ignition/transport/Node.hh:333-397 | The request goes out under the full name as this node's, with a callback iff the caller gave one; a local answer reaches the caller with the partition stripped; this node and every other stay valid. |
| Node.Node.AskIsStep | include/ignition/transport/Node.hh:372-393 | Bridge, by definition of the step: what Request does to the pending requests, behind a new handler, is the Ask step of `OneProcess`. |
| OneProcess.AdvertiseOwned | src/Node.cc:131-140 | Advertising adds at most this topic to what discovery holds of a node, and nothing to what it holds of another. |
| OneProcess.UnadvertiseOwned | src/Node.cc:176-182 | Unadvertising leaves no row of the node under the topic and takes none of another node out of its topics. |
| OneProcess.PerformAccounted | src/Node.cc:119-379 | Every call keeps the stores accounted for, for the caller and for every other node of the process: message rows only for listed topics, callbacks and repliers for exactly the listed ones. |
| OneProcess.StepAccounted | src/Discovery.cc:443-788 | So does whatever discovery receives, finds expired, re-sends or looks for. |
| OneProcess.DestroyedAccounted | src/Node.cc:91-116 | A destructor leaves nothing of its node and every other node of the process accounted for as before. |
| OneProcess.EveryNodeAccounted | src/Node.cc:66-379 | In every run of any number of nodes of one process, created, calling and destroyed in any order while discovery receives anything, every node is accounted for, and of a node that is gone no message row, callback or replier is left. |
| CallMeaning.RowsArePublished | src/Node.cc:119-184 | In every run each own message row names the process's publisher and control address, and a node has a row for a topic iff it advertised it and has since neither unadvertised it, nor unadvertised a service of that name, nor been destroyed; it is one row, with the scope the first such call gave. |
| CallMeaning.AdvertiseAnnounces | src/Node.cc:134-139 | From every state: what Advertise puts, announces and reports. |
| CallMeaning.UnadvertiseTakesBack | src/Node.cc:176-182 | From every state: what Unadvertise and UnadvertiseSrv take, announce and report. |
| CallMeaning.SubscribeSearches | include/ignition/transport/Node.hh:131-137 | From every state: the one SUB and the reports of Subscribe. |
| OneProcess.WithdrawMeans | src/Node.cc:101-107 | Unadvertising a list of topics sends exactly the UNADVs owed, those of the topics whose first row of the node has a scope other than Process, and drops exactly the node's rows there. |
| OneProcess.EmptyEachIsAll | src/Node.cc:93-115 | Emptying the listed topics one by one, in any order, leaves exactly the other nodes' handlers. |
| OneProcess.WithdrawIsAll | src/Node.cc:101-115 | Unadvertising the listed topics, in any order, drops exactly the node's message rows, and the services unadvertised behind them as message topics send nothing. |
| OneProcess.DestroyedInOrder | src/Node.cc:91-116 | The three loops, in whatever order the sets are gone through, remove exactly what the node had in the subscriptions, the repliers and the message table. |
| OneProcess.RunServices | src/Node.cc:353-379 | In every run the process has a row of its own for a service exactly if a node ever advertised it here, whoever withdrew it since. |
| OneProcess.ResponderIsSelf | src/NodeShared.cc:546-570 | In every run a request would be addressed to the process itself exactly if the service was ever advertised here and no process with a smaller UUID is known to serve it; the address is then the process's own replier's. |
| OneProcess.AskedOfSelfIff | src/NodeShared.cc:546-627 | It is addressed to the process itself with no replier of the topic there exactly if, besides, every node that advertised it has withdrawn it or is gone. |
| OneProcess.WithdrawnServiceAsked | src/Node.cc:353-379 | Three calls suffice, from every start: a node is made, advertises a service and withdraws it, and the next request for it would be addressed to the process's own replier, with no replier of the topic left. |
| OneProcess.AskingSelfMarks | include/ignition/transport/Node.hh:372-393 | Bridge between the two, by definition of the step: such a request is marked as requested in the step that makes it. |
| OneProcess.NeverSentAgain | src/NodeShared.cc:572-577 | A request marked as requested stays so whatever nodes and discovery do afterwards, so no later responder triggers it. |
| ServiceNetwork.RequestsAddressed | src/NodeShared.cc:546-619 | In every run of any number of processes with any number of nodes, over a network that loses, duplicates and reorders, each request a process addressed names a replier address and identity that an AdvertiseSrv of that process for that very service put there, its frame goes to that process's replier identity with the asking process's return address, and the addressee still has a replier of it iff one of its nodes advertised it and has neither withdrawn it nor been destroyed since. |
| ServiceNetwork.ReplierIff | src/Node.cc:353-379 | The same equivalence for every process and every service, asked for or not. |
| ServiceNetwork.AddressedIsResponder | src/NodeShared.cc:546-557 | The address recorded for a request is the one SendPendingRemoteReqs takes: the first of the first process. |
| ServiceNetwork.MarkedWasAsked | src/NodeShared.cc:572-581 | Every request marked as requested was addressed to somebody. |
| ServiceNetwork.ServiceRowsGrow | src/Node.cc:374-376 | No node unadvertises a service, so what a process knows of another's services only grows, in order, until that one's BYE arrives or a pass finds it expired, and is then empty. |
| ServiceNetwork.StaysAddressed | src/NodeShared.cc:546-557 | Once a process is the one a request would be addressed to, it stays so, at the same address, over any run in which it is not forgotten, iff no process with a smaller UUID is known in the end, whatever its nodes withdraw and whoever else serves the topic. |
| ServiceNetwork.WithdrawnShadows | src/Node.cc:353-379 | From every reachable state: when the only node of the addressee that offers the service withdraws it, requests go on being addressed there, no replier is left there, and another process that offers the service still has one. |
| Node.Node.Settled | src/Node.cc:119-379 | A call that does what `OneProcess.Perform` says leaves the caller and every other node of the process valid. |
| Node.Node.StaysValid | src/Discovery.cc:443-788 | A datagram, a pass, a heartbeat or a search of discovery leaves every node of the process valid, with nothing to be carried along: the activity coverage it rests on is part of discovery's own Valid, which each of its methods keeps. |
| Node.Node.DrainSubscriptions | src/Node.cc:93-99 | Unsubscribing from each stripped name empties the set and each of its topics in turn, nothing else. |
| Node.Node.DrainTopics | src/Node.cc:101-107 | Unadvertising each stripped name empties the set, and discovery makes and sends what unadvertising each full name does. |
| Node.Node.DrainServices | src/Node.cc:109-115 | Unadvertising each stripped service empties the set and the node's repliers, and discovery unadvertises a message topic of each name. |
| Node.Node.Destroy | src/Node.cc:91-116 | The three asserts hold; the stores are the old ones without what the node had in the subscriptions, the repliers and the message table, nothing else; the UNADV datagrams sent are exactly those owed; every other node of the process stays valid, so the nodes of a process can be destroyed one after the other. |
| Node.Node.AdvertisedTopics | src/Node.cc:145-159 | Each advertised name once, stripped. |
| Node.Node.SubscribedTopics | src/Node.cc:243-258 | Each subscribed name once, stripped. |
| Node.Node.AdvertisedServices | src/Node.cc:336-350 | Each advertised service once, stripped. |
| Node.Node.GetTopicList | src/Node.cc:382-407 | The names discovery knows that pass the partition test, stripped, in order. |
| Node.Node.GetServiceList | src/Node.cc:410-435 | The same for services. |
| Node.ListNamesMembers | src/Node.cc:389-406 | A name is listed iff a known topic passes the partition test and strips to it. |
| Node.ListNamesOrdered | src/Node.cc:389-406 | The listing has one name for each topic that passes, in the order of the topics. |
| Ordering.IncreasingUnique | include/ignition/transport/TopicStorage.hh:125-128 | A set of strings has one increasing listing, so the iteration order of a std::map is determined. |
| Ordering.LessIs | include/ignition/transport/TopicStorage.hh:125-128 | That order is std::string's: a proper prefix comes first, else the smaller char at the first difference decides. |

## Left out

- Packet.Header.Unpack: buffers that do not hold a whole header and bodies whose lengths point past the buffer are excluded by its precondition and that of the other unpackers; the source reads past the end there.
- Discovery.Discovery.DispatchDiscoveryMsg: requires a buffer that parses, for the same reason; a callback is returned as an event, so a callback that calls back into discovery, and the order of a callback and the table change around it, are not modelled.
- HandlerStorage.Storage.AddHandler: takes the handler's UUID as a parameter, where the source asks the handler for it.
- Packet.AdvertiseMsg.Pack: derived classes hold their base as a field, where the source inherits.
- Node.Node.Unsubscribe: the end-of-connection messages to publishers are not modelled; the source puts its own address where the receiver expects a process UUID (src/Node.cc:315, src/NodeShared.cc:314), so they remove nobody.
- OneProcess.EveryNodeAccounted: each call and each discovery step of a process is one step, as under the mutexes it holds; a destructor is one too, though the source locks call by call (src/Node.cc:91-116), so one that others interleave with is modelled by the node's single calls; a callback that calls back into a node is not modelled.
- ServiceNetwork.RequestsAddressed: follows a request until it is addressed; what happens to it on the way and to its answer is `Requests`.
- NodeShared.NodeShared.Request: WaitUntil and its timeout are not modelled; the handler of a call that timed out stays pending, as in the source.
- Sizes: datagrams above the UDP limit, a header length above what an int holds and strings above what a size_t holds.
- Sockets, multicast set-up, 0MQ connections and polling, sleeps, thread start and join.
- Connections of the publish/subscribe side: `remoteSubscribers`, `connections`, OnNewConnection, OnNewDisconnection and RecvControlUpdate; the process-wide branch of OnNewDisconnection looks up the topic "" (src/NodeShared.cc:753) and so disconnects nothing.
- Publish and RecvMsgUpdate: each runs every stored callback of the topic, once, in key order.
- Serialisation of the user's messages and the typed wrappers around callbacks; a request, a response and a callback are strings and functions of strings.
- NetUtils and Uuid: the host address is a parameter, and a UUID is a parameter that was never used before.
- Elapsed time is an integer number of nanoseconds, where the source divides floating-point seconds.
- Printing, verbose output, environment variables, getters and setters.
