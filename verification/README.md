# Verification of the proxy's relay, rendezvous and transports

The program relays TCP connections and UDP datagrams between listeners and connectors. This project models the
parts of it where several tasks share state or where bytes are re-framed, and proves what those parts promise.

* **The global block pool** (`BlockPool*.dfy`, `Block.dfy`). All buffered connections share one credit counter and
  one `Notify`. Every connection has two `DataBlock` queues, each with one reader task and one writer task.
  `BlockPool` is the interleaved machine: each atomic operation, lock scope and poll of a `Notify` is a step, any
  number of connections come and go, and a `Notify` is a stored permit plus waiters that are handed
  notifications. `Block` has the classes as they are written, each call tied to the steps it stands for.
  The counter is an unbounded integer in the machine; it is proved never to go below 0 or above its exact maximum,
  the limit less 2 plus two per lane, so the 64-bit counter neither wraps nor underflows.
* **The direct relay** (`TcpRelay.dfy`): the two-task relay used without a pool, as a machine and as the loop over
  one fixed buffer.
* **The reverse-gRPC rendezvous** (`Rendezvous*.dfy`, `RevGrpcState.dfy`): a connector asks a remote manager to
  dial back; callers of the dial-back methods may use any conn_id and password, any number of times, and the
  connector may time out at any step. Besides safety, `RendezvousProgress.dfy` shows that no request is lost and
  that a connect through an open session can succeed from every reachable state.
* **The framed transports** (`TcpFrame.dfy`, `CarryOver.dfy`, `PbTcp.dfy`): masked frames, the cache that
  re-chunks messages into the caller's buffers, the handshake and optional encryption of pb_tcp.
* **Codecs and caches** (`Socks5.dfy`, `UdpPacket.dfy`, `HttpVia.dfy` and `HttpAccept.dfy` with `Utf8.dfy`,
  `UdpResolve.dfy`, `DnsCache.dfy`): SOCKS5 parsing over its two back-ends (sections 3 and 4 of RFC 1928), the
  SOCKS5 UDP datagram (section 7 of RFC 1928), the HTTP proxy request with its Via line and loop detection
  (section 7.6.3 of RFC 9110), the two-way map between domains and addresses, and the DNS cache with its clean-up.

`Common.dfy`, `Bytes.dfy`, `MapSum.dfy` and `Separator.dfy` hold shared types and lemmas. Verify the whole project
with `dafny verify dfyconfig.toml`.

Where the code does less than one might expect, the project says exactly what it does:

* The limit is no bound: a chunk is always admitted to an empty queue, and the test and the increment are separate
  operations. The blocks queued number at most limit - 1 plus one per lane. The counter, which also holds blocks
  popped and not yet released, is at most limit - 2 (or 0 for a smaller limit) plus two per lane. Both bounds are
  reached, for every limit from 1 on and every number of lanes.
* The pool's `Notify` may leave a reader waiting while credit is free, because two releases may share one permit.
  This can happen exactly in pools with a limit of 2 or more, and exactly from a limit of 3 on without even another
  reader's attempt under way (`StrandedExactly`). Such a reader is woken by its own queue, at the latest when that
  queue is empty (`NoLostWakeup`).
* After end of file a buffered lane may end with blocks undelivered. The moment the source has ended decides: in
  every run without a write error all is delivered if and only if the queue then holds no more than a block the
  writer is already committed to pop (`EndOfFileDelivery`, with the smallest loss in `EndOfFileMayDropData`).
* A wrong password uses up the pending entry it names (`ClaimEntry`), and a tag that is not configured needs no
  password (`Manager`).
* The SOCKS5 parser over a stream accepts a request whose last port byte is missing and reads it as 0
  (`StreamPadsPort`), and stops on a field of length 0; `HelloBackendsAgree` and `RequestBackendsAgree` give the
  exact inputs on which the two back-ends differ. The SOCKS5 branch of htss5 forgets what follows the hello in
  the first read.
* A datagram or a reply without data does not parse (`ParseInvertsHeader`, `ParseOfReply`).
* A DNS cache entry belongs to one question exactly when neither its address nor its dns string has a `-` in it
  (`KeyShared`). Two configured dns strings can collide exactly when one is the other behind something and a `-`
  (`ConfiguredCollision`).
* If two overlapping writes to a name look up different addresses, the forward entry changes and a reverse entry may
  lose its forward entry (`RacedForward`, `RacedReverse`). The relays write to a stream one packet at a time.

## Model

| member | source | states |
|---|---|---|
| `BlockPoolSafety.InvKept` | src/block.rs:25-139 | every step of every task of every connection, and every spawn and drop, keeps the pool invariant |
| `BlockPoolSafety.QueuedBlocksBound` | src/block.rs:90-106 | in every interleaving the queued blocks of all live lanes number at most limit - 1 plus the number of lanes |
| `BlockPoolWitness.QueuedBlocksBoundReached` | src/block.rs:90-106 | for every limit from 1 on and every number of lanes some run queues exactly that many, with both lanes of every connection open when their number is even |
| `BlockPoolCounter.CounterBound` | src/block.rs:25-46 | in every interleaving the counter is at least 0 and at most limit - 2, or 0 for a smaller limit, plus two per live lane |
| `BlockPoolCounter.CounterBoundReached` | src/block.rs:25-46 | for every limit and every number of lanes some run brings the counter to exactly that value, so it is the maximum |
| `BlockPoolCounter.SurplusBelowCredit` | src/block.rs:98-103 | what makes the bound hold at an approval: as soon as any credit is in use, the blocks beyond two per lane number less than the credit in use |
| `BlockPoolSafety.QueuedBytesBound` | src/main.rs:61-68 | with the limit main computes, buffered bytes stay strictly below the configured size plus 2048 per lane |
| `BlockPoolSafety.BlockNumberRoundsUp` | src/main.rs:61-62 | that block number is the least that holds the configured size in blocks of 2048 bytes |
| `BlockPoolSafety.PoolConservation` | src/block.rs:28-46 | the counter always equals the blocks queued, taken but not pushed, popped but not released, or still being released by a drop; it is 0 once no block object is left |
| `BlockPoolSafety.ReleaseAndPopSafe` | src/block.rs:108-139 | a release, also in a drop, only happens on a positive counter, and the unwrapped pop only on a non-empty queue |
| `BlockPoolSafety.RelayDelivery` | src/object/tcp.rs:34-170 | in every reachable state the sink is a prefix of a lane's stream; the undelivered rest is exactly the writer's chunk, the queue and the reader's chunk; every delivered byte is counted once |
| `BlockPoolSafety.RunDelivery` | src/object/tcp.rs:26-170 | the same over whole runs, where the stream is the payload the lane was opened with, written and counted before anything else, followed by all the run's reads of its source returned |
| `BlockPoolSafety.NoLostWakeup` | src/block.rs:71-125 | no writer sleeps on a non-empty queue and no reader on an empty one unless already notified or about to be; both never sleep together unnotified |
| `BlockPoolSafety.RunKeepsInv` | src/object/tcp.rs:36-167 | over whole runs the invariant holds and a cancelled token stays cancelled |
| `BlockPoolProgress.WorkShrinks` | src/block.rs:71-139 | each step but a read or a spawn uses up a potential that bounds the work still to come |
| `BlockPoolProgress.WorkBound` | src/object/tcp.rs:34-170 | no run, however interleaved, has more than 25 steps per chunk read and 9 per lane opened: no livelock and no wakeup storm |
| `BlockPoolProgress.QuiescentMeansDelivered` | src/object/tcp.rs:34-170 | when nothing but a source can act, every lane of a cancelled connection is gone, every other lane has delivered and counted all it read, and the counter is 0 |
| `BlockPoolProgress.RunDeliversAll` | src/object/tcp.rs:26-170 | over whole runs: at rest each remaining lane has sent, and counted, its payload and then all its reads returned |
| `BlockPoolProgress.ConnectionGoesOn` | src/object/tcp.rs:34-170 | until a source of a connection ends or a write of it fails, its token is not set and none of its tasks leaves its loop, whatever other connections do; at rest it has then delivered everything |
| `BlockPoolProgress.ComesToRest` | src/object/tcp.rs:151-170 | from every reachable state, runs without new reads are bounded, can be continued until nothing is left to do, and then all lanes of connections cancelled before are gone |
| `BlockPoolProgress.QuiescenceReached` | src/object/tcp.rs:151-170 | such a run to rest exists from every state that satisfies the invariant |
| `BlockPoolProgress.DataPendingCanStep` | src/block.rs:71-125 | a reader and writer with data between them always have a step of their own, whatever the rest of the pool does |
| `BlockPoolProgress.PopsBounded` | src/block.rs:71-106 | while a reader's chunk stays unadmitted its own queue only shrinks, so at most as many pops follow as it held blocks |
| `BlockPoolProgress.BoundedWait` | src/block.rs:71-106 | a reader held back with k blocks queued sees at most k of them popped; after that it takes at most four actions of its own without an attempt, and any attempt it starts is admitted |
| `BlockPoolProgress.RefusalsBounded` | src/block.rs:90-106 | once the queue is empty, an unadmitted reader has made no new attempt and can be refused at most once, by an attempt already under way |
| `BlockPoolProgress.AdmittedAfterFewTries` | src/block.rs:71-106 | in every run, a reader whose queue is empty takes at most four actions of its own before its chunk is admitted or given up, whatever the counter and all other lanes do |
| `BlockPoolShutdown.CancelledLaneEnds` | src/object/tcp.rs:42-167 | once a connection's token is set, at most 38 steps of the lane's own bring both its tasks to their end, also from inside provide and whatever all other lanes do |
| `BlockPoolShutdown.EndOfFileDelivery` | src/object/tcp.rs:48-93 | at any moment after the source has ended: every continuation without a write error delivers all that was read if and only if no write has failed yet and the queue holds no more than a block the writer is already committed to pop |
| `BlockPoolShutdown.EndOfFileMayDropData` | src/object/tcp.rs:77-93 | the smallest loss: one block queued, the writer idle when the source ends; both tasks end without error and the block is never written |
| `BlockPoolStranded.StrandedExactly` | src/block.rs:43-49 | a reader can be left waiting while credit is free and no notification is under way exactly in pools of limit 2 or more, and exactly from limit 3 on without another reader's attempt under way |
| `BlockPoolStranded.TinyPoolWakes` | src/block.rs:43-49 | with limit 0 or 1 a reader that waits while credit is free is notified, or about to be, by its own queue |
| `BlockPoolStranded.AttentiveKept` | src/block.rs:75-106 | with a limit of at most 2, every step keeps that a refused reader is not alone in knowing of free credit: a notification or another reader's attempt is under way |
| `Block.DataBlock.InnerProvide` | src/block.rs:90-106 | admits exactly when its own queue is empty or credit is free, appends and takes one credit then, changes nothing otherwise; it is the machine's admitting or refusing steps |
| `Block.DataBlock.Consume` | src/block.rs:108-125 | one poll of consume pops the oldest block, gives one credit back and notifies both sides, or, on an empty queue, uses up a stored permit and waits; it is the machine's steps either way |
| `Block.DataBlock.Drop` | src/block.rs:128-139 | gives back exactly one credit per block still queued, and wakes as many waiting readers as there are, storing one permit for any more |
| `Block.AdmitSteps` | src/block.rs:90-106 | the machine's uninterrupted steps for each outcome of inner_provide have exactly that outcome |
| `Block.ConsumeSteps` | src/block.rs:108-125 | the machine's uninterrupted steps of one poll deliver the head of the queue, or leave the writer queued on its Notify |
| `TcpRelay.DirectDelivery` | src/object/tcp.rs:171-243 | in every reachable state each direction's sink plus the chunk in hand is cached payload plus bytes read; at the head of the loop nothing is in hand and all is counted |
| `TcpRelay.RunDelivery` | src/object/tcp.rs:26-243 | the same over whole runs, for the bytes the run's reads returned: behind the cached payload in one direction, alone in the other |
| `TcpRelay.RelayGoesOn` | src/object/tcp.rs:171-243 | until a read ends or fails or a write fails, the token is not set and both tasks stay in their loops |
| `TcpRelay.ShutdownCompletes` | src/object/tcp.rs:39-248 | once a task has ended the token is set for good, at most eight more steps without reads follow, and one is possible until both joins have returned |
| `TcpRelay.Pump` | src/object/tcp.rs:173-207 | the loop, reusing one buffer, writes and counts exactly what the machine's task does for any course of reads, errors and cancellation |
| `TcpRelay.AfterDelivers` | src/object/tcp.rs:173-207 | the machine's task delivers the data of each accepted write and the part sent of a failing one, and counts the accepted ones |
| `TcpRelay.Relaying` | src/object/tcp.rs:26-248 | the cached payload goes first to the connector's stream, and if that fails nothing is relayed; then, however the turns of the two loops interleave, each stream gets exactly what its own loop's turns give |
| `TcpRelay.Independent` | src/object/tcp.rs:171-243 | in every interleaving of single steps each direction's task does what its own actions do by themselves |
| `RendezvousSafety.InvKept` | src/connector/rev_grpc.rs:112-402 | every step of connects, sessions and dial-back calls keeps the invariant that ties the tables, the oneshot senders and the handlers to each other |
| `RendezvousSafety.Agreement` | src/connector/rev_grpc.rs:112-178 | a stream connect returns was made by a call whose first message carried exactly its conn_id and password, and is labelled with the host and port asked for |
| `RendezvousSafety.DeliveryIsOneToOne` | src/connector/rev_grpc.rs:311-353 | no call is delivered to two connects, no connect receives two calls, and two calls with one conn_id are not both delivered |
| `RendezvousSafety.ListenerAgreement` | src/listener/rev_grpc.rs:25-73 | a stream the listener accepts reports, in its handshake, exactly the host and port of the connect whose conn_id it carries, and its manager session had that connector's tag and password |
| `RendezvousSafety.RequestsStayInSession` | src/connector/rev_grpc.rs:137-149 | a queued request is the one its connect made and sits in the session of that connect's tag |
| `RendezvousProgress.WaitingIsRequested` | src/connector/rev_grpc.rs:142-160 | conversely, while a connect waits, its request, for its conn_id, host, port and kind, is in the queue of the session it found, or a call was made in answer to it |
| `RendezvousProgress.ConnectCanSucceed` | src/connector/rev_grpc.rs:112-178 | from every reachable state with a connect that has just found a session whose receiver is there, some continuation returns a stream to it that the listener accepts for the same host and port, whatever is queued before it |
| `RendezvousProgress.ListenerCanRegister` | src/connector/rev_grpc.rs:274-303 | a listener with the password of its tag gets a manager session whenever the tag is free, and a connect for that tag finds it |
| `RendezvousSafety.NothingLeftBehind` | src/connector/rev_grpc.rs:151-177 | however connect or udp_tunnel returned, its conn_id is in neither table then nor at any later time |
| `RendezvousSafety.ReturnKept` | src/connector/rev_grpc.rs:160-177 | a returned connect stays returned with the same result |
| `RendezvousFailures.FailureHasCause` | src/connector/rev_grpc.rs:151-177 | a connect fails with a closed channel only after a call with its own conn_id and a wrong password took its entry, and fails to send only to a session whose receiver is gone |
| `RendezvousFailures.WrongCallerEndsConnect` | src/connector/rev_grpc.rs:328-333 | conversely, once such a call took its entry, a connect's sender is gone and in no continuation does it return a stream |
| `RendezvousSafety.ManagerTableExact` | src/connector/rev_grpc.rs:282-303 | a tag maps to a session if and only if that session is live and inserted it, so a session's clean-up removes its own entry and no other |
| `RevGrpcState.Tables.Manager` | src/connector/rev_grpc.rs:274-297 | a manager call is refused for a wrong password or a tag in use and otherwise inserts exactly its tag; a tag without configured password is let in |
| `RevGrpcState.Tables.Register` | src/connector/rev_grpc.rs:132-143 | the two tables, taken as one, gain exactly the entry of this conn_id and kind |
| `RevGrpcState.Tables.Unregister` | src/connector/rev_grpc.rs:151-177 | they lose exactly that entry, if it is there |
| `RevGrpcState.Tables.ClaimEntry` | src/connector/rev_grpc.rs:323-350 | a dial-back call takes out the entry it names, whether or not its password is right, and no other |
| `TcpFrame.FrameRoundTrip` | src/util/tcp_frame.rs:9-36 | for every mask, reading inverts writing if and only if the data has at most 16 MiB; longer data is refused |
| `TcpFrame.FrameSizeLimit` | src/util/tcp_frame.rs:6-36 | data of 16777216 bytes is read back, one byte more is refused |
| `TcpFrame.FrameLayout` | src/util/tcp_frame.rs:9-22 | the frame is the mask, then the length less the mask modulo 2^64, each with its high byte first, then the data |
| `TcpFrame.HeaderCarriesLength` | src/util/tcp_frame.rs:14-29 | the wrapping mask cancels: the header always carries the length |
| `TcpFrame.FramesRoundTrip` | src/util/tcp_frame.rs:9-36 | any list of frames with any masks is read back as it was, leaving exactly what follows |
| `TcpFrame.TruncatedFrameFails` | src/util/tcp_frame.rs:24-36 | a frame cut anywhere before its end is never accepted |
| `TcpFrame.TruncatedStream` | src/util/tcp_frame.rs:24-36 | a stream cut anywhere yields exactly the frames wholly before the cut, then end of file |
| `TcpFrame.WriteFrame` | src/util/tcp_frame.rs:9-22 | appends exactly the encoded frame to what was sent |
| `TcpFrame.ReadFrame` | src/util/tcp_frame.rs:24-36 | returns what decoding the bytes to come says, its error cases included, and leaves exactly the rest |
| `TcpFrame.Reader.ReadExact` | src/util/tcp_frame.rs:25-34 | fills the whole buffer in order, or fails |
| `CarryOver.GrpcStream.Read` | src/stream/grpc_client.rs:31-66 | a read hands out the next pending bytes, as many as fit, and keeps the rest; an error loses nothing and leaves the buffer alone |
| `CarryOver.GrpcStream.Split` | src/stream/grpc_client.rs:104-115 | the read half has all pending bytes if and only if nothing was cached |
| `CarryOver.GrpcStream.Handshake` | src/stream/grpc_server.rs:102-117 | takes one whole message and leaves the cache alone; the message gives the password, the address and the port modulo 2^16, and a missing field panics |
| `CarryOver.ReadSeveral` | src/stream/grpc_server.rs:36-72 | for any messages and any buffer sizes, the pieces read followed by the pending bytes are always the same byte string |
| `CarryOver.ServeCache` | src/stream/rev_grpc_client.rs:31-42 | a read from the cache hands out its front and keeps its rest |
| `CarryOver.ServePayload` | src/stream/rev_grpc_server.rs:58-68 | a new payload is split between buffer and cache without loss |
| `PbTcp.DecryptInvertsEncrypt` | src/util/crypto.rs:14-38 | with the nonce in front, decryption gives back the plain bytes |
| `PbTcp.WriteLayout` | src/util/crypto.rs:14-24 | a write goes out as the payload of a message, encrypted as a nonce of 12 bytes and the sealed bytes, otherwise as it is |
| `PbTcp.ReadLayout` | src/stream/pb_tcp_server.rs:95-104 | a frame reads as nothing without a payload, and encrypted as what its payload opens to behind 12 bytes of nonce, if it does |
| `PbTcp.IncomingIsPlain` | src/stream/pb_tcp_client.rs:48-119 | in either direction, encrypted or not, what one end reads off the frames of any writes is the concatenation of the writes |
| `PbTcp.HandshakeAgrees` | src/connector/pb_tcp.rs:38-48 | behind the type byte the server finds the handshake frame, which opens to the host, port and password sent, and both ends choose the same encryption |
| `PbTcp.Connect` | src/connector/pb_tcp.rs:38-48 | the type byte and the auth frame go out first, in this order; encryption is off exactly for port 443 |
| `PbTcp.PbTcpStream.ReadPayload` | src/stream/pb_tcp_server.rs:72-112 | a read hands out the next pending bytes, as many as fit; with nothing cached the next frame decides length and error |
| `PbTcp.PbTcpStream.NextPayload` | src/stream/pb_tcp_server.rs:95-104 | takes one frame and opens it, decrypting only non-empty payloads |
| `PbTcp.PbTcpStream.WriteBuf` | src/stream/pb_tcp_client.rs:105-119 | sends one frame that stands for exactly the buffer |
| `PbTcp.PbTcpStream.Split` | src/stream/pb_tcp_server.rs:153-168 | the read half has all pending bytes if and only if nothing was cached |
| `PbTcp.PbTcpStream.Handshake` | src/stream/pb_tcp_server.rs:48-69 | takes one frame and succeeds exactly when it is a message whose auth and address fields open under the password and which has a port; it gives what they open to and the port modulo 2^16, and turns encryption off exactly for port 443; on failure password and encryption are as before |
| `PbTcp.ReadSeveral` | src/stream/pb_tcp_server.rs:72-112 | any reads with any buffer sizes hand out a prefix of the pending bytes, in order |
| `PbTcp.WriteSeveral` | src/stream/pb_tcp_client.rs:105-119 | any writes put their frames on the wire in order |
| `PbTcp.IncomingOfCut` | src/stream/pb_tcp_client.rs:48-119 | however a wire of frames is cut, what is read off it is a prefix of what was written |
| `PbTcp.Accept` | src/listener/pb_tcp.rs:139-157 | a connection is accepted exactly when its first frame is a message whose auth field opens under the listener's password to that password, whose address opens under it, and which has a port; the address is what was opened, with the port modulo 2^16 |
| `PbTcp.ServeConnection` | src/listener/pb_tcp.rs:62-76 | end to end, on any part of what a connector has sent: type byte, handshake, password check, split and reads give its address exactly when the handshake frame is there, and a prefix of its writes; the connector reads the replies back whole, and a prefix of them from any part |
| `Socks5.Parser.ReadExact` | src/def.rs:50-64 | however the stream splits its bytes, the result depends on the bytes alone: a short read pads with zeros, no byte at all is the end |
| `Socks5.Parser.ParseRequest` | src/util/socks5/request.rs:19-70 | the parser, over either back-end, computes the record and count that the bytes alone determine |
| `Socks5.Parser.ParseHello` | src/util/socks5/client_hello.rs:15-30 | the same for the hello |
| `Socks5.HelloBackendsAgree` | src/util/socks5/parser.rs:29-62 | the back-ends differ exactly on a hello of no methods and on one with some of its methods there and some missing; otherwise both give the same record and count, or both fail |
| `Socks5.RequestBackendsAgree` | src/util/socks5/parser.rs:29-62 | the back-ends differ exactly on a request that lacks just its last byte and on one with an empty name and its port; otherwise both give the same record and count, or both fail |
| `Socks5.StreamPadsPort` | src/def.rs:50-64 | on such a cut the stream parser may accept what the bytes parser refuses, with a zero for the missing port byte |
| `Socks5.HelloRoundTrip` | src/util/socks5/client_hello.rs:15-45 | parsing inverts the wire form of section 3 of RFC 1928 and uses exactly its length |
| `Socks5.RequestRoundTrip` | src/util/socks5/request.rs:19-86 | parsing inverts the wire form of section 4 of RFC 1928 and uses exactly its length |
| `Socks5.RequestSplitsInput` | src/util/socks5/request.rs:81-85 | whatever parses is the wire form of the record followed by the bytes not consumed |
| `Socks5.Handshake` | src/listener/htss5.rs:58-83 | accepts exactly the valid pairs of reads; host, port (high byte first) and UDP flag are those of the request, for every host, port and command sent in the wire form; the cache is exactly what follows the request; nothing is lost if and only if the first read ends with the hello; each refusal has its error and reply |
| `Socks5.AddressComesBack` | src/util.rs:27-78 | sending a host of any kind, a port and a command and reading them back gives the same host and port, for UDP if and only if the command is 3 |
| `Socks5.HelloErrors` | src/util/socks5/client_hello.rs:15-30 | which error a refused hello gives, over either back-end |
| `Socks5.RequestErrors` | src/util/socks5/request.rs:19-70 | which error a refused request gives: version, command and address type are checked in this order, and only then is something missing |
| `HttpVia.Handshake` | src/listener/http.rs:39-127 | the loop over the header lines decides as the specification over all lines does; a CONNECT is answered as established before its host and port are looked at, and nothing else is answered |
| `HttpAccept.RequestAccepted` | src/listener/http.rs:49-127 | a request with the first line `method target version` is accepted if and only if its header is text, the target is not in origin form, its URL (with `http://` put in front unless it has a `://`) has host and port, and, but for CONNECT, no line names the server; it goes to that host and port |
| `HttpAccept.RequestRefused` | src/listener/http.rs:49-123 | otherwise the error is that of the first check it fails |
| `HttpAccept.NoTargetRefused` | src/listener/http.rs:67-73 | a first line without a space is refused |
| `HttpAccept.RequestForwarded` | src/listener/http.rs:87-111 | an accepted request is forwarded with `Via: 1.1 <id>` behind its first line and is otherwise as received; a CONNECT is not forwarded |
| `HttpAccept.SecondPartOf` | src/listener/http.rs:67-80 | the target is what stands between the first space and the next one or the end of the line |
| `HttpAccept.LinesJoin` | src/listener/http.rs:61-61 | the lines of a header have no line break in them and, joined by line breaks, give the header |
| `HttpAccept.NamesServerSpelled` | src/listener/http.rs:95-99 | a line counts as a loop if and only if it begins with `via:` in whatever case and has the server's id in it |
| `HttpAccept.HeaderSpelled` | src/listener/http.rs:49-57 | the header ends behind the first blank line, or with the data if there is none |
| `HttpVia.ViaInserted` | src/listener/http.rs:93-111 | for every accepted request other than CONNECT, exactly one Via line follows the first line, and all other bytes, the body too, are as received |
| `HttpVia.LoopAlwaysRejected` | src/listener/http.rs:94-99 | what is forwarded is always rejected as a loop by a listener of the same id, and never accepted by it when cut after its Via line |
| `HttpVia.OwnViaRejected` | src/listener/htss5.rs:131-137 | any request other than CONNECT whose second line is this server's Via line is refused |
| `Utf8.CutValid` | src/listener/http.rs:50-57 | valid text cut right after an ASCII character gives two valid texts |
| `Utf8.ValidExactly` | src/listener/http.rs:50-57 | what passes as text is exactly what encodes some characters by section 3 of RFC 3629 |
| `UdpPacket.ParseInvertsHeader` | src/def.rs:155-245 | for all three address types parsing inverts the header of section 7 of RFC 1928 if and only if data follows |
| `UdpPacket.ParseSplitsDatagram` | src/def.rs:155-245 | whatever parses, other than a fragment, is a header for the address and port reported, followed by the data |
| `UdpPacket.ParseOfReply` | src/def.rs:136-154 | parsing a reply gives back its data and the source port of the packet if and only if there is data |
| `UdpPacket.FragmentsAreDropped` | src/def.rs:155-190 | a datagram with another fragment number gives an empty packet; one of fewer than five bytes, or with an unknown address type, an error |
| `UdpResolve.ForwardIsFirst` | src/stream/udp.rs:64-100 | a destination and port is known exactly when written to before, under the address it first got |
| `UdpResolve.ForwardStable` | src/stream/udp.rs:64-71 | forward entries never change once set |
| `UdpResolve.ReverseHasForward` | src/stream/udp.rs:89-97 | every reverse entry has the forward entry for its domain and the port of its address |
| `UdpResolve.ReverseKnown` | src/stream/udp.rs:89-97 | an address has a reverse entry if and only if a domain's first resolution gave it |
| `UdpResolve.ReverseIsLatest` | src/stream/udp.rs:89-97 | the entry names the domain most recently resolved to the address for the first time |
| `UdpResolve.KeyInjective` | src/stream/udp.rs:65-65 | a forward key determines destination and port |
| `UdpResolve.UdpRunStream.ResolveDstAddr` | src/stream/udp.rs:64-100 | a known destination keeps its address; a new one takes its own IP, or the first address found of the socket's family, or if there is none of that family the first found, and is filed behind whatever overlapping writes filed between the two lock scopes; nothing is filed on an error |
| `UdpResolve.FiledIsReplay` | src/stream/udp.rs:64-100 | as long as writes do not overlap on a destination, the maps are those of the sequential results above |
| `UdpResolve.ForwardIsLastFiled` | src/stream/udp.rs:89-90 | however writes overlap, a key holds the address filed last for its destination |
| `UdpResolve.ReverseIsLastFiled` | src/stream/udp.rs:93-97 | however writes overlap, an address names the domain filed last for it |
| `UdpResolve.RacedForward` | src/stream/udp.rs:64-100 | however writes overlap, forward entries never change if and only if no two filings of one destination disagree |
| `UdpResolve.ReverseHasForwardFiled` | src/stream/udp.rs:89-97 | then every reverse entry also has its forward entry |
| `UdpResolve.RacedReverse` | src/stream/udp.rs:64-100 | two overlapping first writes to one name whose lookups differ leave a reverse entry without its forward entry |
| `UdpResolve.UdpRunStream.ReportedName` | src/stream/udp.rs:117-128 | a datagram is reported under the domain filed last for its sender, which without overlaps is the one most recently resolved to it for the first time, or under the IP when there is none |
| `UdpResolve.FirstIn` | src/stream/udp.rs:80-83 | finds the first address of the wanted family, if and only if there is one |
| `DnsCache.CleanupInvisible` | src/router/resolver.rs:53-88 | clean-ups anywhere in a run change no answer and no upstream query, also when a clean-up or a store takes the lock long after it read the clock |
| `DnsCache.HitIsFresh` | src/router/resolver.rs:60-70 | an answer from the cache is the last upstream answer filed under its key, less than 180 seconds ago, or 60 for an error |
| `DnsCache.HitForLifetime` | src/router/resolver.rs:60-96 | conversely, the last answer filed under a key is returned for exactly that time |
| `DnsCache.QueryRouted` | src/router/resolver.rs:72-78 | an unknown question goes to the default server for an empty dns string, over HTTPS for one that starts with `doh://` or `https://`, and to the named server otherwise |
| `DnsCache.KeyInjective` | src/router/resolver.rs:61-61 | without a dash in the dns string a key belongs to one question |
| `DnsCache.KeyShared` | src/router/resolver.rs:61-61 | a question shares its key with a different one if and only if its address or its dns string has a dash |
| `DnsCache.KeyPartners` | src/router/resolver.rs:61-61 | two questions share a key, the second with the shorter dns string, exactly when that string follows a dash in the first one's, and what stands before that dash ends the second one's address |
| `DnsCache.ConfiguredCollision` | src/router/resolver.rs:61-61 | two different dns strings can share a key, for some addresses, exactly when one is the other behind something and a dash |
| `DnsCache.Resolver.CleanupCache` | src/router/resolver.rs:53-58 | keeps exactly the entries that have not expired |
| `DnsCache.Resolver.ResolveIp` | src/router/resolver.rs:60-88 | asks upstream exactly when there is no fresh entry, and files what it got for its own lifetime |

## Left out

- Weak memory: each atomic operation and each lock scope is one sequentially consistent step, although the code uses relaxed atomics.
- The order in which `Notify` picks a waiter: any waiting reader may be handed a notification, which covers first in, first out.
- Task panics, and cancelling a connect future from outside; timeouts are steps that may happen at any time.
- The size limits of the message channels and the gRPC transport itself: channels are unbounded queues in the rendezvous.
- The parsing of a connect address into host and port; the rendezvous starts from a non-empty host and a port.
- Fresh conn_ids are assumed, as the code draws random UUIDs.
- Protobuf, the AEAD cipher and base64 are abstract pairs of functions of which only "decoding inverts encoding" is assumed; URL parsing and the printing of IP addresses are abstract functions; the 12-byte nonce split is concrete.
- UdpPacket.Reply: only the bytes of the reply, not the two address texts returned beside them, the first of which says where it is sent.
- Sockets, DNS queries, keep-alive, clocks and randomness are parameters of the calls that use them.
- `usize` is taken to have 64 bits.
- The select loop of provide is in the step machine only; Block has the attempt it repeats.
- The UDP tunnel of pb_tcp, which shares frames and cipher with its streams.
- A promise to deliver a lane's remaining data after cancellation, or to wake a reader by the pool whenever credit is free: the code makes neither, and the model gives the exact cases.
- HttpVia.Handshake: lower-casing is that of ASCII, which decides the test for a line starting with "via:" exactly as Unicode lower-casing does.
- The router's matchers, configuration, observation records other than byte counts, logging, and the SOCKS5 confirm and server hello bytes.
