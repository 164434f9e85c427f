# VPNd: a verified model of the packet engine

VPNd is a small VPN daemon. Each daemon reads packets from a tun/tap device, wraps them in
encrypted frames, and exchanges the frames with its peers over TCP. This project models the part of
it that carries packets (`src/peer_net.c`, `src/peer.c`, `src/netroute.c`, `src/packet_header.c`,
`src/protocol.c`) and proves what that part keeps over whole runs.

| layer | modules | what it is about |
|---|---|---|
| frames | `Protocol`, `Framing`, `SharedStream`, `StreamIo` | the header codec; a parser that inverts the printer under every chunking; many senders behind one mutex and one reader, as a step system; the send and receive loops themselves |
| ciphers | `Cipher` | AES-CBC and RSA as parameters with a contract, PKCS#7 padding written out |
| addresses | `Routes`, `PacketHeader`, `RouteRecords` | route records, their comparison, their extraction from packets, and the linked route lists on the heap |
| one daemon | `Router`, `RouterRuns`, `Forwarding`, `Authentication`, `Learning`, `PeerTable`, `StaleBytes` | what each event does to a daemon; invariants of every run; where packets go, in terms of addresses; the outcome of authentication in closed form; what packets of any content teach; the peer list on the heap, proved against `Router`; independence from stale memory |
| several daemons | `Handshake`, `Session`, `Star`, `StarTraffic`, `Network` | the key exchange of two daemons over FIFO channels; a session of two daemons; a server with any number of clients; any number of daemons and connections |

Functions of `Router` say what an event does to a daemon as a value. The methods of `PeerTable`,
`RouteRecords`, `StreamIo` and `Protocol` are the imperative code and are proved equal to those
functions. A connection of the heap daemon from its start to its end (`PeerConnection`) and a tun/tap
read (`TunIteration`) are sequences of `Router` events, and events from a reachable state lead to a
reachable state (`PlayedIsReached`), so what is proved of runs holds of the heap daemon.

Each tun/tap read, each received frame and each send of the handshake is one atomic step; only the
section of `send_data_to_peer` under the peer's mutex is modelled send by send. Random bytes, the
sizes of partial sends and receives, and the content of uninitialised memory are arbitrary values.
Frames that are sent carry at most 2048 bytes of payload. In the modules about several daemons the
packets that are read have at most 2047 bytes, although a device can deliver one of 2048: such a packet
is sent and refused, as the bound in `UnicastIsSent` says.
Connection numbers (`epoch`) and the logs of the step systems are history: no step consults them.

Facts of the code that the model keeps:

* `include/protocol.h` documents a big-endian length field, and the comments of `src/protocol.c`
  say the same; the code writes it in the byte order of the host. `DocumentedLengthFormat` says
  exactly when the two agree, `HeaderAcrossHosts` what two hosts of different byte order make of it.
* `set_peer_info` clears `enc_ctx` twice and `dec_ctx` never. The decrypt context of a peer element
  therefore says nothing about its current connection; `DecryptContextIsHistory` says exactly what it
  does say, and the results about ciphers rest on `authenticated`. The context that stays behind is
  freed once more when the next connection fails: `FreedTwiceIff` says exactly when, and
  `DoubleFreeHappens` shows a run.
* A packet that is not IP leaves the route record of the tun reader as it was, so in TUN mode the
  destination of the packet before it becomes a local address. `LoopLearnsExactly` says what is learned
  from any packets, `LocalAreSourcesIff` when it is only sources, and `DestinationBecomesLocal` gives two
  packets with which it is not.
* A packet of 2048 bytes is one byte too long: its frame is refused by every receiver.
  `AesRoundTrip` and `UnicastIsSent` give the exact bound.
* `rsa_encrypt` allows one byte more than OAEP can take (`RSA_MAXSIZE` subtracts 41, the padding
  takes 42), so at exactly that length it is OpenSSL that refuses. `RsaEncryptIffFits` says when it
  succeeds, and the outcome of the handshake rests on that.
* A hub learns a source only from packets for its own device, while its clients learn every source
  that reaches them. Packets can therefore circulate for ever between a hub and its clients.
  `ForEverIffTrapped` says exactly when, `ReplyNeverDies` that two packets and a reply are enough, and
  `TrapLasts` that other traffic does not end it.

## Model

| member | source | states |
|---|---|---|
| SharedStream.WireIsFramesInLockOrder | src/peer_net.c:70-98 | In every state of every run, with any number of sending threads, any interleaving and any partial sends, the bytes on the connection are whole frames in the order in which the mutex was taken and then at most a proper part of one frame; while the connection is up that part belongs to the lock holder. |
| SharedStream.ReceivedInLockOrder | src/peer_net.c:121-166 | Whatever the chunks, the reader returns exactly the frames that went out whole, in lock order; it never meets an oversize header; at the end of the stream it has returned all of them and nothing else. |
| SharedStream.QuiescentMeansDelivered | src/peer_net.c:70-98 | With no thread sending, the connection up and the reader caught up, every frame ever sent has been returned. |
| SharedStream.HolderAlwaysProgresses | src/peer_net.c:71-98 | The mutex is never left locked: on an unbroken connection its holder can always send another byte or unlock, each of its steps comes nearer to the unlock, and no step of another thread sets it back, also after a failed send. |
| SharedStream.AnyOrderAnyChunks | src/peer_net.c:70-98 | Nothing is excluded: for any list of threads, frames and splits into partial sends there is a run that sends exactly these, and then the connection carries exactly these frames in this order. |
| SharedStream.StepInv | src/peer_net.c:70-166 | Every step of a sender, of the reader, or of a failure keeps mutual exclusion, the shape of the wire and the reader's position together. |
| Framing.ParsePrinted | src/peer_net.c:121-166 | Parsing printed frames followed by any proper part of another frame gives the frames back and leaves that part. |
| Framing.ParseResumes | src/peer_net.c:121-166 | A stream may be cut anywhere: parsing the first part and then the left-over bytes with the second part gives what parsing the whole gives. |
| Framing.ParseRestIsStuck | src/peer_net.c:121-166 | What the parser leaves over holds no whole frame. |
| Framing.OversizeStays | src/peer_net.c:141-148 | A stream with a refused header is refused whatever follows. |
| Framing.FeedIsParse | src/peer_net.c:126-162 | One recv of any size moves the receiver as parsing the bytes seen so far does. |
| Framing.OversizeStartsOver | src/peer_net.c:141-148 | After a refused header and one more recv the receiver stands where it stands at the start of a stream. |
| Framing.FrameByBytes | src/protocol.c:53-73 | A frame is its type, its length in four bytes in the order of the host, and its payload, byte for byte. |
| Framing.RefusedIff | src/peer_net.c:141 | A header is refused if and only if its length is more than 2048; otherwise the frame is the first one received, once it is complete. |
| StreamIo.SendAll | src/peer_net.c:72-97 | A send loop puts all its bytes on the socket, or a proper prefix of them and then nothing more. |
| StreamIo.SendFrame | src/peer_net.c:70-98 | The socket gets the frame, or a proper prefix of it; call by call, with failed calls too, the two loops do what a thread of the step system does from taking the mutex until it can release it, so that a failed header does not stop the attempt to send the payload. |
| StreamIo.RecvAll | src/peer_net.c:126-162 | A receive loop fills exactly its part of the buffer with the next bytes of the stream, or reports that the stream ended or failed first. |
| StreamIo.ReceiveFrame | src/peer_net.c:121-166 | A positive result is the first frame of the parsed stream, and the rest of the stream parses to the rest; 0 means an oversize header at the front, after which one recv has overwritten the start of the buffer with at least one more byte, if there is one and the socket works, and the rest of it is as it was; -1 means that no whole frame was left or the socket failed. |
| StreamIo.ReceiveFrames | src/peer_net.c:412-415 | Unless the socket fails, the loop hands to process_frame exactly the frames of the stream, in order, up to and including the first CLOSE; if an oversize header comes first, that header with its length is what it hands on next; if the socket fails, it hands on no other frames before that header. |
| Framing.UpToFirstClose | src/peer_net.c:413-414 | What the loop hands on is everything when there is no CLOSE, and otherwise ends with the first one. |
| Protocol.HeaderRoundTrip | src/protocol.c:68-80 | For every type and every 32-bit length, decoding an encoded header on a host of the same byte order gives both back. |
| Protocol.HeaderBytesOfHeader | src/protocol.c:68-80 | Every five bytes are the encoding of what they decode to. |
| Protocol.HeaderAcrossHosts | src/protocol.c:34-80 | Between hosts of different byte order the type survives and the length arrives byte-reversed, so they agree on it if and only if it is a byte palindrome. |
| Protocol.DocumentedLengthFormat | include/protocol.h:35-43 | The header has the documented big-endian length if and only if the host is big-endian or the length is a byte palindrome. |
| Protocol.ReadUint32 | src/protocol.c:34-50 | The accumulated value is the word the host would load from those four bytes. |
| Protocol.WriteUint32 | src/protocol.c:53-66 | The four bytes become the host's representation of the value, and no other byte changes. |
| Protocol.EncodeFrameHeader | src/protocol.c:69-73 | The first five bytes become the header, and no other byte changes. |
| Protocol.DecodeFrameHeader | src/protocol.c:76-80 | The results are the type and the length of the header in the buffer. |
| Cipher.AesRoundTrip | src/encryption.c:57-109 | Decryption gives back every packet, the ciphertext is never empty, and it fits a frame if and only if the packet is at most 2047 bytes. |
| Cipher.AesDecryptIff | src/encryption.c:84-109 | A payload decrypts to a packet if and only if it is a positive number of 16-byte blocks that open to the packet with its padding. |
| Cipher.PadIsPkcs7 | src/encryption.c:57-82 | The padding fills up to the next multiple of 16, and each byte of it is its length. |
| Cipher.RsaEncryptIffFits | src/rsa.c:89-107 | Encryption succeeds if and only if the message is at most the modulus size less 42; the check of the code itself passes other messages exactly when the length is the modulus size less 41 or the modulus is shorter than 41 bytes. |
| Handshake.Agreement | src/peer_net.c:321-393 | At every moment of every interleaving, an authenticated side encrypts and decrypts with the key and IV the server drew for this connection. |
| Handshake.HandshakeOutcome | src/peer_net.c:275-395 | Whenever no handshake move is left, both threads are past authentication; the server is authenticated if and only if it trusts the client's key and that key is at least 74 bytes, the client if and only if in addition it trusts the server's. |
| Handshake.HandshakeTerminates | src/peer_net.c:275-395 | The handshake takes at most fourteen moves of the two threads, however much traffic other threads interleave. |
| Handshake.EveryRunCanFinish | src/peer_net.c:275-395 | Every run, wherever it stands, extends to one in which no handshake move is left. |
| Handshake.HonestExists | src/peer_net.c:275-395 | The assumptions of the handshake results can be met: for two concrete daemons that trust each other there is a run that ends with both authenticated. |
| Handshake.HandshakeAdvances | src/peer_net.c:275-395 | Every handshake move brings the handshake closer to its end and traffic never sets it back. |
| Handshake.TrafficDisablesNothing | src/peer_net.c:49-56 | A packet another thread sends, or tries to send, leaves every possible handshake move possible. |
| Handshake.TrafficEffect | src/peer_net.c:49-68 | In every state of every run, what another thread tries to send is nothing while its side is not authenticated, and otherwise one NETPACKET frame at the end of its log that opens to the packet under the drawn key. |
| Handshake.AcceptedStaysUp | src/peer_net.c:411-415 | When both sides accept each other, neither ever ends the connection by itself, and once no handshake move is left both are in the receiving loop with the key and IV the server drew. |
| Handshake.FrameOrder | src/peer_net.c:224-258 | In every run in which no side is interrupted, the server's frames are three AUTH and then only NETPACKET, the client's one AUTH and then only NETPACKET. |
| Handshake.LoopOnlySeesPackets | src/peer_net.c:224-258 | The receiving loop never takes the branches for an unexpected AUTH, an unauthenticated peer, an empty packet or a failing decryption. |
| Session.HandshakeStartsSession | src/vpnd.c:70-75 | A finished handshake of two daemons that accept each other is the start of a session in which every frame sent and not yet read is in flight, provided what the two have learned and sent until then came from local addresses. |
| Session.PacketsAreConserved | src/peer_net.c:184-217 | In every state of a two-daemon session the multiset of numbered packets read equals the multiset written plus the multiset in flight: no packet is lost, written twice or written to both devices. |
| Session.AtMostTwoCrossings | src/peer_net.c:185-209 | No packet crosses the link more than twice, and one on its second crossing goes to the daemon to which its destination is local. |
| Session.DeliveriesTerminate | src/peer_net.c:184-217 | At every moment the arrivals so far plus those the packets in flight can still cause are at most twice the packets read, so without further reads every run of deliveries stops. |
| Session.BounceMeansElsewhere | src/peer_net.c:204-209 | A packet is sent back only if its destination was learned from the other side and is not local here. |
| Session.ReadSendsOne | src/peer.c:274-291 | A tun/tap read sends exactly one frame across, whether its destination is known or not. |
| Session.ArrivalHasOneOutput | src/peer_net.c:184-217 | An arriving packet is either written to the device or sent back, never both and never neither. |
| Network.WrittenWasRead | src/peer_net.c:58-68 | For any number of daemons, any topology and any history of connections, every packet written to a device is byte for byte a packet read earlier from some device. |
| Network.AddressesWereSources | src/peer_net.c:186-199 | For any topology, when every packet read is complete for the kinds of device in use, every address any daemon holds as local or for a peer was the source of one of them. |
| Network.UnicastIsReadable | src/peer_net.c:49-68 | In every reachable state a packet for a looked-up owner becomes exactly one frame on a wire of that connection, and as long as the element at the other end is in the connection, its own decrypt context gives the packet back; the frame is accepted if and only if the packet is at most 2047 bytes. |
| Network.ReadPuts | src/peer.c:274-291 | A read puts on each wire of its node exactly the frames for that peer, after those that are there, and changes no other wire. |
| Network.ArrivePuts | src/peer_net.c:168-218 | An arrival takes exactly the first frame off its wire, and puts what comes of it on the wires of its node and on its device. |
| Network.BreakEnds | src/peer.c:214 | A broken connection takes nothing more in, sends nothing more, and its element is free; nothing else changes. |
| Network.PacketGetsThrough | src/peer_net.c:184-217 | Any packet that one of two freshly connected daemons reads is written by the other, once. |
| Star.ForEverIffTrapped | src/peer_net.c:185-217 | In a server with any number of clients and any packets for one address in flight, deliveries can go on for ever if and only if two things hold: the hub does not take the packets itself and either passes them to a client that sends them back, or floods them and two clients send them back; and some packet is on its way to the hub or to a client that sends it back. |
| Star.TrappedNeverDies | src/peer_net.c:204-217 | In such a trap, in every run, whatever arrives in whatever order and whatever else is read for that address, there is always another frame to arrive. |
| Star.UntrappedStaysShort | src/peer_net.c:185-217 | Without the trap, in every run that starts with nothing in flight or with packets on their first link, no packet for the address ever crosses more than four links. |
| Star.UncaughtDiesOut | src/peer_net.c:185-217 | Otherwise every run of deliveries ends, after at most as many arrivals as a weighted sum of the queue lengths at its start. |
| Star.TrapIsSprung | src/peer_net.c:185-209 | The trap is reachable: with three clients of which none has learned anything, one packet from the first client to each of the other two, delivered everywhere, leaves them trapped for the address of the first client. |
| Star.ReplyNeverDies | src/peer_net.c:185-217 | After these two packets, the answer of the second client to the first can be delivered on and on, for any number of arrivals. |
| Star.ReadCirculates | src/peer.c:274-291 | Any packet for the address that a client reads is then in circulation. |
| Star.StepKeeps | src/peer_net.c:185-202 | Packets for one address change nothing about who knows that address, in any daemon of the star. |
| StarTraffic.TrapLasts | src/peer_net.c:185-217 | With packets for any addresses read and arriving at the same time, a trap for an address and the packets caught in it last at least until a packet that comes from this address is read or arrives at the hub. |
| StarTraffic.StepForgetsNothing | src/peer_net.c:185-202 | A move that is not about a packet from an address leaves the hub's knowledge of it as it was, and every client that sends its packets back goes on doing so. |
| Learning.LoopLearnsExactly | src/peer.c:263-283 | Whatever the packets, the addresses that the reading loop makes local are exactly these: for a packet that the buffer shows as IP or Ethernet the source it shows, for any other the destination of the last one that was parsed, or what the record held at first. |
| Learning.LocalAreSourcesIff | src/peer.c:263-283 | The loop makes local only sources of complete packets if and only if each address that stands in for the source of an incomplete one is such a source or was local before. |
| Learning.CompleteHaveNone | src/peer.c:263-283 | When all packets are complete, nothing stands in. |
| Learning.DestinationBecomesLocal | src/packet_header.c:108-111 | It does go wrong: after an IPv4 packet and an ARP packet in TUN mode, the destination of the first, from which no packet came, is local. |
| Learning.ArrivalLearnsExactly | src/peer_net.c:184-200 | An arriving packet adds exactly its source to the routes of the peer, if its destination is local and nobody owns the source; one that is not IP can add only an address that is local already. |
| RouterRuns.AuthenticatedMeansVettedAndKeyed | src/peer_net.c:303-393 | In every reachable state, over any history of connects, failed handshakes, disconnects and reuse, an authenticated peer has a key that passed the trust check in its current connection, and both contexts were made from one key and IV in that connection. |
| RouterRuns.SessionKeysHaveRightSizes | src/peer_net.c:333-351 | In every reachable state, whatever the peers send, an authenticated client holds a key of 32 bytes and an IV of 16; so does an authenticated server, if it draws such keys. |
| Authentication.ClientAuthenticates | src/peer_net.c:275-395 | In closed form, for any frames: a client sends its key; it is authenticated if and only if three AUTH frames arrive, the first with a trusted key, the second with a secret of exactly 32 bytes and the third with one of exactly 16; it then holds these; and otherwise it gives up at the first frame that is wrong or missing. |
| Authentication.ServerAuthenticates | src/peer_net.c:275-395 | In closed form, for any frames: a server sends its key and takes one frame; if and only if that is an AUTH frame with a trusted key that takes both secrets, it sends the key and then the IV it drew, under that key, and holds them. |
| Forwarding.ArrivalForwards | src/peer_net.c:184-217 | In every reachable state, for any packet: it is written to the device, once, if and only if its destination is local or no alive peer has it; it goes, once, to the alive peer that has it or, when none has it and it is not local, to every alive authenticated peer but the one it came from; to nobody else; and only the sender's routes change, by the source, if the destination is local and nobody has the source. |
| Forwarding.ReadForwards | src/peer.c:285-290 | In every reachable state, with peers at any stage, for any packet read: one frame goes to the alive peer that has the destination or, when none has it, to every alive authenticated peer; nobody else gets anything and nothing is written. |
| Forwarding.FrameForwards | src/peer_net.c:220-269 | CLOSE ends the loop and does nothing else; a non-empty NETPACKET from an authenticated peer that decrypts is routed; everything else changes and sends nothing. |
| Forwarding.OwnerHas | src/peer.c:252-259 | In every reachable state the owner of an address is the one alive peer that has it, and it can be sent packets. |
| RouterRuns.DecryptContextIsHistory | src/peer.c:77-83 | A peer element has a decrypt context if and only if some connection it has served so far got authenticated, now or before. |
| RouterRuns.FreedTwiceIff | src/peer.c:77-83 | Over any run, set_peer_info has freed some context of a peer element twice if and only if the element was recycled when an earlier connection of it had been authenticated and its latest one had not. |
| RouterRuns.FreedIsHistory | src/peer.c:77-83 | An element holds a freed decrypt context if and only if an earlier connection of it got authenticated and its latest one did not; so no authenticated peer decrypts with a freed context. |
| RouterRuns.DoubleFreeHappens | src/peer.c:66-88 | It does happen: in a concrete run with one authenticated connection, one that is lost before, and a third, the first decrypt context is freed twice. |
| RouterRuns.PlayedIsReached | src/peer_net.c:398-423 | Events played from a reachable state lead to a reachable state, where the invariant of all runs holds. |
| RouterRuns.TunLoopIsPlayed | src/peer.c:274-291 | The reading loop is one read for each packet, in order, and nothing else. |
| RouterRuns.LookupIsAMap | src/peer.c:252-259 | In every reachable state the first-match scan is lookup in an address-to-peer map, and gives the same peer in whatever order the list is walked, although dead elements keep old routes. |
| RouterRuns.OwnerIsUnique | src/peer.c:252-259 | Under the route invariant a peer is the owner of a route if and only if it is alive and its list has the route's key. |
| RouterRuns.LearningAddsOneOwner | src/peer_net.c:184-202 | Delivering a packet for a local destination changes the lookup of no route but its source, which becomes the sender's if and only if it was no one's. |
| RouterRuns.ConnectionHistory | src/peer.c:66-88 | Between two moments of a run a peer element is either in the same connection with everything it had learned, or has in between started another one, unauthenticated and with an empty list. |
| RouterRuns.OwnershipIsSticky | src/peer.c:252-259 | Once a peer owns an address, lookups return that peer until its connection ends. |
| RouterRuns.NothingIsInherited | src/peer.c:84-87 | Every later connection in the same element starts owning no address at all. |
| RouterRuns.RoutesWereTaught | src/peer_net.c:184-200 | In every reachable state every route of a peer came, in the current connection of that peer, with a packet that this peer delivered and whose destination was local then. |
| RouterRuns.TaughtBySource | src/peer_net.c:184-200 | For a complete packet, what it teaches has the key of its own source, and its own destination is local. |
| RouterRuns.LocalRoutesOnlyGrow | src/peer.c:275-283 | Over any run the local routes are free of duplicates and only grow at the end. |
| RouterRuns.UnicastIsSent | src/peer_net.c:49-68 | In every reachable state, whatever the peers send, a packet for a looked-up owner becomes exactly one frame, never dropped by the authentication check, made with the key of the current connection, that the receiver accepts if and only if the packet is at most 2047 bytes. |
| RouterRuns.AddPeerAddsOne | src/peer.c:148-171 | A new connection makes exactly one more peer alive, takes the first dead element or a new one, starts it without key, encrypt context, routes or authentication, and leaves every other one as it was; the list grows if and only if no element is dead. |
| RouterRuns.ListLengthIsPeak | src/peer.c:148-171 | In every reachable state the list is as long as the largest number of simultaneously alive connections so far. |
| RouterRuns.RunInv | src/peer_net.c:168-269 | Every reachable state satisfies the invariant: authentication, keys and trust belong together, and the routes of alive peers are free of duplicates and pairwise disjoint. |
| Router.BroadcastOnlyTo | src/peer_net.c:104-117 | A broadcast sends only to alive authenticated peers other than the excluded one, each under its own key. |
| Router.BroadcastReaches | src/peer_net.c:104-117 | A broadcast reaches every such peer. |
| Router.BroadcastInOrder | src/peer_net.c:104-117 | A broadcast sends in list order and to no peer twice. |
| StaleBytes.StaleBytesNeverMatter | src/netroute.c:60-90 | Two runs that differ only in the stale bytes of stored addresses, and in the memory packets are parsed into, give the same outputs at every step. |
| StaleBytes.StepAlike | src/packet_header.c:43-114 | Each single event does the same to two daemons that differ only in stale bytes, and what they learn from it again differs only there. |
| PacketHeader.ParsedRoutesCompare | src/packet_header.c:43-95 | On a host of either byte order two parsed records compare equal if and only if the packets carry the same address, whatever the records and buffers held. |
| PacketHeader.ParsedKey | src/packet_header.c:43-114 | The key parsed from a complete packet is that of its address field, independent of what the record and the buffer held. |
| PacketHeader.Ip6ByBytes | src/packet_header.c:64-79 | In TUN mode a packet with bytes 0x86, 0xDD at 2 has its source at byte 12 and its destination at byte 28, 16 bytes each. |
| PacketHeader.Ip4ByBytes | src/packet_header.c:48-63 | In TUN mode a packet with bytes 0x08, 0x00 at 2 has its source at byte 16 and its destination at byte 20, kept reversed on a little-endian host. |
| PacketHeader.EthernetByBytes | src/packet_header.c:84-95 | In TAP mode every packet has its destination at byte 4 and its source at byte 10, 6 bytes each. |
| PacketHeader.OthersByBytes | src/packet_header.c:106-111 | In TUN mode every other type leaves the record as it was. |
| PacketHeader.PrintedBytesAreThePackets | src/netroute.c:31-57 | The bytes passed on for printing are the packet's own address bytes in order, on either byte order. |
| Routes.SameRouteIsSameKey | src/netroute.c:60-74 | The comparison is equality of flags and meaningful bytes, so it is an equivalence. |
| Routes.StaleBytesIgnored | src/netroute.c:60-74 | Changing bytes beyond the meaningful ones changes no comparison. |
| RouteRecords.CompareNetroutes | src/netroute.c:60-74 | Two records on the heap compare equal if and only if their keys are equal. |
| RouteRecords.DuplicateNetroute | src/netroute.c:77-90 | The copy has all the bytes of the original, stale ones included, and shares no buffer with it. |
| RouteRecords.RouteList.Add | src/netroute.c:93-112 | Terminates; appends one new record that shares nothing with the caller's record or with anything that existed; keeps all earlier records, their order and their contents; the list stays acyclic. |
| RouteRecords.AddToOne | src/peer_net.c:188-200 | Learning a route for one peer leaves the lists of all other peers, and the local routes, as they were, and no two lists ever come to share a record. |
| RouteRecords.RouteList.Find | src/netroute.c:130-138 | Returns the first record with the key searched for, and null if and only if there is none. |
| RouteRecords.RouteList.Clear | src/netroute.c:115-125 | The walk frees every record of the list exactly once, in order, reads no record after freeing it, and leaves an empty list. |
| RouteRecords.GetNetrouteAddr | src/netroute.c:31-57 | Hands on the bytes that PrintedBytesAreThePackets is about. |
| RouteRecords.ParseIpPacket | src/packet_header.c:43-80 | Overwrites the flags and exactly the address bytes of its family, and leaves the other bytes of the record. |
| RouteRecords.ParseEthPacket | src/packet_header.c:84-95 | Overwrites the flags and the first six address bytes, and leaves the others. |
| RouteRecords.ParsePacketAddr | src/packet_header.c:100-114 | Leaves the record untouched for a packet that is not IP in TUN mode, and otherwise stores the address of the packet. |
| PeerTable.Peer.constructor | src/peer.c:50-63 | A new element is dead, unauthenticated and without keys, contexts or routes. |
| PeerTable.Peer.SetPeerInfo | src/peer.c:66-88 | Reuse frees both contexts that are there, and resets everything about the peer, the records of its route list included, but its decrypt context and its place in the list. |
| PeerTable.Peer.Authenticate | src/peer_net.c:275-395 | On every sequence of arriving frames the straight-line code ends in the state, sends the frames and takes the number of frames that the step-by-step handshake does; it returns true if and only if the peer is authenticated. |
| PeerTable.Peer.CheckKey | src/peer_net.c:300-316 | The peer passes if and only if an AUTH frame brought a key that loads and is trusted. |
| PeerTable.Peer.TakeSecret | src/peer_net.c:330-351 | A secret is taken if and only if it comes in a non-empty AUTH frame no longer than the modulus and opens to exactly `size` bytes, and then it is what the frame opens to. |
| Router.AuthIsPlayed | src/peer_net.c:275-395 | On every sequence of frames the straight-line authentication is a sequence of events, each possible when its turn comes, with the same final state and the same frames sent. |
| Router.AuthTakes | src/peer_net.c:297-351 | Authentication takes a first part of the arriving frames, and loses the stream only when it has taken all. |
| Router.LoopTakes | src/peer_net.c:412-415 | The receiving loop takes the frames up to the first CLOSE, and loses the stream if and only if there is none. |
| PeerTable.Vpnd.PeerReceive | src/peer_net.c:398-423 | From a new connection on, whatever frames arrive, the receiving thread does what a sequence of possible events of this peer does; the frames it takes are exactly those of the authentication and, if that succeeds, all that follow up to the first CLOSE, in order; the stream is lost only after all frames, and in the loop exactly when there is no CLOSE; and the keys are made from what was drawn. |
| PeerTable.Vpnd.EndConnection | src/peer.c:214 | Marks the peer dead and changes nothing else. |
| PeerTable.Vpnd.PeerConnection | src/peer.c:202-243 | A whole connection is Accept, then the events of PeerReceive on the frames that arrive, then Reap, in the first dead element or a new one. |
| PeerTable.Vpnd.IsLocalRoute | src/peer.c:246-249 | True if and only if the linked list of local routes has a record with the same key. |
| PeerTable.Vpnd.GetPeerRoute | src/peer.c:252-259 | The walk over the linked list returns the element that LookupIsAMap is about, or null if no alive peer has the route. |
| PeerTable.Vpnd.AddPeer | src/peer.c:148-171 | Reuses the first dead element or appends a new one, keeps the list linked, its elements distinct and their route lists apart, and leaves every other element as it was. |
| PeerTable.Vpnd.SendDataToPeer | src/peer_net.c:41-68 | Sends exactly one frame to an alive peer, encrypted if asked, and nothing to a dead one or, if encrypted, to an unauthenticated one. |
| PeerTable.Vpnd.BroadcastDataToPeers | src/peer_net.c:104-117 | The loop over the list sends the frames that BroadcastOnlyTo, BroadcastReaches and BroadcastInOrder are about, in that order. |
| PeerTable.Vpnd.ProcessNetpacket | src/peer_net.c:168-218 | Decrypts, learns, writes and forwards as the value model does, on the linked peers and the linked route lists, and touches no other peer and no other route list. |
| PeerTable.Vpnd.ProcessFrame | src/peer_net.c:220-269 | Returns a negative number if and only if the frame is CLOSE; the new state and the outputs are those of the value model. |
| PeerTable.Vpnd.TunIteration | src/peer.c:274-291 | From any state, one read learns its source in the linked list of local routes and sends what the value model does, and leaves record and buffer as the next iteration finds them. |
| PeerTable.Vpnd.BroadcastTuntapDevice | src/peer.c:263-295 | Over any sequence of reads the loop learns and sends what the value model does, with one record and one buffer that live across the iterations. |

## Left out

- OpenSSL: AES, RSA and PEM are parameters with a contract (round trip and lengths) that concrete ciphers meet; random bytes, allocation and context creation do not fail.
- Real sockets, poll, name lookup, bind/listen and the tun ioctl, read and write: nondeterministic channels, and packets given as arguments.
- What process_frame makes of an oversize header: it would look at bytes beyond the buffer. The loop of `ReceiveFrames` hands the header on, and module Router takes frames of at most 2048 bytes.
- The size of the buffer `enc_data` in `send_data_to_peer`, which a packet of 2048 bytes exceeds once padded; the model gives such a frame its full length.
- Unsynchronised access of several threads to routes and peers, encryption outside the mutex, and the close after `alive` is cleared: atomic steps.
- Handshake: a side that gives up closes in order, so that the other side still reads what was sent before; a reset that discards data is not part of it.
- Handshake.FrameOrder: the CLOSE frames that an interrupt sends to all peers (src/signals.c:32) are not part of the handshake runs; that a CLOSE ends the loop is in `ReceiveFrames` and `ProcessFrame`.
- Session, Star: both ends of a link have the same byte order and kind of device. Session, Star, Network: frames are not laid out as bytes, which takes the same byte order at both ends (HeaderAcrossHosts); links do not lose frames of a live connection.
- Session.HandshakeStartsSession: that the packets of other threads come from local addresses is a condition, because module Handshake does not follow where they are read.
- Star: the exact condition is for packets of one address, none of which comes from it; for mixed traffic StarTraffic says how long a trap lasts, not how soon packets outside a trap die.
- Network: an established connection appears in one step; the handshake of two daemons is module Handshake.
- PeerTable.Peer.SetPeerInfo: a context is a value with a name, and freeing it an entry in a history; what memory does when it is freed twice is not part of the model.
- PeerTable.Vpnd.PeerConnection: one connection runs to its end before the next event; interleaving with other connections is in RouterRuns.
- PeerTable.Vpnd.BroadcastTuntapDevice: the packets are given as one sequence and nothing else happens between two reads; `TunIteration` is one read from any state, and interleaving is in RouterRuns.
- PeerTable.Vpnd.SendDataToPeer: stops at the frame it sends; how its bytes get out is SharedStream and StreamIo.
- RouteRecords.GetNetrouteAddr: stops at the bytes; the text form is that of the C library.
- Mutex set-up, address strings, ports, logging, `dump_peers` and `destroy_peers`.
- Argument parsing, scripts, signals, path joining, loading key files, and program start and stop.
