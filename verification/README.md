# Verified model of ovpn2ss

`ovpn2ss` bridges Shadowsocks AEAD clients to a user-space lwIP stack whose packets travel
through OpenVPN. This project models its protocol logic in Dafny and proves what that logic
guarantees over whole runs:

- the TCP relay session (`RelaySpec`, `RelayControl`, `RelayUplink`, `RelayDownlink`,
  `RelayInvariant`, `RelayTheorems`, `RelayOverlap`, `RelayProgress`, `RelayClosing`,
  `RelayEvents`, `RelaySession`);
- the AEAD stream codec and its nonces (`Nonces`, `Framing`, `AeadSession`);
- the Shadowsocks address codec (`Text`, `Addresses`);
- the DNS query printer and response parser (`DnsCodec`) and the table of in-flight queries (`DnsTable`,
  `DnsHistory`);
- the UDP mapping table (`UdpTable`);
- the VPN reconnect loop (`Reconnect`).

`dafny verify dfyconfig.toml` checks everything.

## How the outside world enters

- **Events.** lwIP and Asio appear as events with arbitrary answers: a run is any sequence of
  events, each allowed only when the operation it completes is outstanding or the pcb it comes
  from is live (`RelaySpec.Enabled`, `DnsTable.Enabled`, `UdpTable.Enabled`). `tcp_write` takes all of
  its bytes or none; `async_write` reports success only for the whole buffer; a write started on
  a socket that is closed, or whose sending side was shut down at the remote's FIN, moves nothing.
  What a read completion finds in the read buffer is the event's data.
- **lwIP's accounting** is free except where a theorem asks for a `RelayOverlap.Realizable` run: a read
  fills at most the 8192-byte buffer (include/ovpn2ss/TcpRelaySession.h:50), the send buffer is 43520
  minus the unacknowledged bytes on every turn of the flush loop (third_party/lwipopts.h:33,
  third_party/lwip/src/core/tcp.c:1892), and the sent callback reports bytes that were accepted
  (third_party/lwip/src/core/tcp_in.c:455). The runs of `RelayOverlap` and `RelayProgress` and that of
  `RelayClosing.AbortDropsAccepted` are of this kind.
- **Cryptography.** ChaCha20-Poly1305 and HKDF are the functions of a `Framing.Cipher`: any functions
  that add a 16-byte tag and that undo sealing under the same key and nonce. Salts are event data.
- **IP text.** Asio's address parsers are the functions of an `Addresses.Inet`: any functions that read
  back at least the printed forms. Both types are shown to be inhabited.
- **Exceptions** are results: `threw`, `Refused`, `Rejected`, `None`.
- **std::string** is a byte string; bit masks on lengths and flags are written as comparisons and remainders.

The TCP session, the resolver and the UDP table exist twice: as functions on values, over which
runs are defined and theorems proved, and as classes with the program's methods and loops. A
class is valid when its state is one that a run reaches (for the UDP table: when the invariant of
all runs holds), every callback keeps it so and takes exactly the step of the function, and what
the outside world has seen is ghost. The TCP session class keeps its fields in three records
(flags, client to remote, remote to client).

## Where the code differs from what one would expect

- `increment_nonce` tests a sum that has been widened to `int`, so the carry never leaves byte 0.
  Peers built from this code interoperate with each other without limit (`Framing.RoundTrip`); a
  peer that follows the intended little-endian counter follows for exactly 128 chunks
  (`Framing.InteroperatesExactly`), and a frame opens again every 128 chunks (`Framing.RepeatsExactly`).
- The remote's FIN shuts the sending side of the client socket while buffers may still be queued:
  only the write in flight can still arrive (`RelayClosing.FinTruncates`), so nothing is lost exactly when
  at most one buffer was queued (`RelayClosing.FinDeliversExactly`), and a first payload directly followed
  by the FIN always is (`RelayClosing.FirstPayloadLost`).
- The same FIN closes the whole pcb while the session goes on reading: nothing the client sends
  from then on, and nothing still queued, reaches the remote (`RelayClosing.FinStopsClient`, `FinAcceptsExactly`),
  and the queue grows without bound (`RelayProgress.FinUnbounded`).
- The client's EOF aborts a pcb that is not yet connected or cannot be shut down, and with it
  whatever lwIP had accepted (`RelayClosing.EofHalfClosesExactly`, `AbortDropsAccepted`).
- A payload longer than a frame allows closes the session (`RelayTheorems.RecvClosesExactly`). lwIP delivers
  such payloads when it joins out-of-order segments (third_party/lwip/src/core/tcp_in.c:1592).
- `tcp_write` running out of memory with nothing unacknowledged pauses a connected session for good
  (`RelayProgress.MemHalts`, `ResumesExactly`); without such answers every pause is owed an acknowledgement
  (`RelayProgress.PausedIsOwed`).
- After a first chunk without a valid address the session closes but the decrypt loop goes on, and
  a later chunk may still connect; `RelayClosing.ClosingOwnsExactly` says exactly when. `RelayUplink.Relayed`
  therefore skips chunks up to the first that starts with an address. The theorems that speak of
  the plaintext minus its header (`ClientToRemotePlaintext`, `SealedByClient`, `SealedByConformingClient`) are
  about streams whose first chunk starts with one; the others hold for any stream.
- With a domain target, two reads can be outstanding on the same buffer
  (`RelayOverlap.TwoReadsReachable`); `SecondRead` and `HazardArises` say exactly which events lead there.
- A resolve whose 16-bit identifier is already in flight loses its callback, one with a rejected label
  waits without a timer, one with an unreadable server address is dropped, and a failed send under
  a taken identifier is reported to the other query (`DnsTable.SecuredExactly`, `MisdirectsExactly`,
  `CallbacksLost`). The pcb of a query that finds its identifier taken is never removed (`DnsTable.LeaksExactly`).
- The UDP key leaves out the address type, so a domain spelled like an address shares its entry
  (`UdpTable.ReplyKindExactly`).

## Model

| member | source | states |
|---|---|---|
| Nonces.IncrementNonce | src/ShadowsocksAead.cpp:250-258 | the in-place loop, with its widened sum, changes byte 0 only and wraps it at 256 |
| Nonces.CarryCounts | src/ShadowsocksAead.cpp:250-258 | the intended increment adds one to the little-endian value modulo 256^length |
| Nonces.CodeNextIsIntended | src/ShadowsocksAead.cpp:250-258 | one increment is the intended one if and only if byte 0 is not 255 |
| Nonces.CodeAfter | src/ShadowsocksAead.cpp:250-258 | after k increments from zero the nonce is k mod 256 in byte 0 and zeros elsewhere |
| Nonces.AgreeExactly | src/ShadowsocksAead.cpp:250-258 | after k steps code and intended counter agree if and only if k mod 2^96 is below 256 |
| Nonces.NonceRepeats | src/ShadowsocksAead.cpp:250-258 | the code's nonce sequence has period exactly 256 |
| Nonces.ChunkInStep | src/ShadowsocksAead.cpp:126-134 | chunk i uses the intended pair of nonces if and only if i < 128 |
| Framing.NextFrameExactly | src/ShadowsocksAead.cpp:140-167 | a frame is returned only when its length opens, exactly the announced bytes are there and they open to the chunk; a complete part that does not open is bad, and more is asked for only when a part is incomplete |
| Framing.DecodeExactly | src/ShadowsocksAead.cpp:140-167 | for any bytes: chunks, leftover, nonce and verdict are given if and only if the buffer is frames whose parts open under their own nonces to those chunks, and a leftover that fails to open (bad) or is incomplete |
| Framing.NextFrameExtends | src/ShadowsocksAead.cpp:140-167 | more bytes never change a frame or a failure already found |
| Framing.Fragmentation | src/ShadowsocksAead.cpp:140-167 | one read of a ++ b, or a then b, gives the same chunks, leftover, nonce and verdict, for all bytes |
| Framing.OpensOwnFrame | src/ShadowsocksAead.cpp:115-167 | a sealed chunk is the next frame of any buffer that starts with it |
| Framing.RoundTrip | src/ShadowsocksAead.cpp:97-167 | any list of chunks of at most 0x3fff bytes is recovered whole, with nothing left and the nonces in step |
| Framing.PartialDelivery | src/ShadowsocksAead.cpp:140-167 | any part of a sealed stream decodes, without failure, to a prefix of its chunks |
| Framing.PeerStops | src/ShadowsocksAead.cpp:250-258 | past 128 chunks some lawful cipher makes the receiver fail, whether the program or a peer with the intended counter sent the stream |
| Framing.InteroperatesExactly | src/ShadowsocksAead.cpp:250-258 | between the program and a peer with the intended counter, in either direction, a stream is recovered under every lawful cipher if and only if it has at most 128 chunks |
| Framing.RepeatsExactly | src/ShadowsocksAead.cpp:126-167 | given after a whole stream, the frame of chunk i opens again as one more chunk under every lawful cipher if and only if its new place is a multiple of 128 chunks after its own |
| AeadSession.ShadowsocksAeadSession.ClientSalt | src/ShadowsocksAead.cpp:97-104 | derives the send key, zeroes the send nonce, leaves the receive side alone |
| AeadSession.ShadowsocksAeadSession.SetClientSalt | src/ShadowsocksAead.cpp:106-113 | accepts exactly 32-byte salts; otherwise nothing changes |
| AeadSession.ShadowsocksAeadSession.Crypt | src/ShadowsocksAead.cpp:210-227 | seals under the nonce and steps it in place |
| AeadSession.ShadowsocksAeadSession.Decrypt | src/ShadowsocksAead.cpp:229-248 | opens under the nonce and steps it only on success |
| AeadSession.ShadowsocksAeadSession.EncryptTcpChunk | src/ShadowsocksAead.cpp:115-138 | both refusals, and otherwise the frame with the nonce two steps on |
| AeadSession.ShadowsocksAeadSession.DecryptTcpChunk | src/ShadowsocksAead.cpp:140-167 | returns a chunk only when both parts of its frame open, reports a complete part that does not, and moves the receive nonce only when a whole frame opens |
| AeadSession.ShadowsocksAeadSession.EncryptUdpPacket | src/ShadowsocksAead.cpp:169-179 | salt followed by the payload sealed under the zero nonce |
| AeadSession.ShadowsocksAeadSession.DecryptUdpPacket | src/ShadowsocksAead.cpp:181-196 | gives a payload exactly when the packet opens to it with the key of its own salt and the zero nonce |
| AeadSession.UdpRoundTrip | src/ShadowsocksAead.cpp:169-196 | any session with the master key opens a UDP packet of any size |
| AeadSession.DecodeUdpExactly | src/ShadowsocksAead.cpp:181-196 | a packet gives a payload if and only if it is a 32-byte salt followed by bytes that open to it under that salt's key and the zero nonce |
| AeadSession.TransferAll | tests/unit_tests.cpp:56-67 | two sessions exchange any number of chunks unchanged and end with equal nonces |
| Addresses.PrintV4Reads | src/ShadowsocksAead.cpp:281-284 | split at its dots, the printed IPv4 host reads as the four bytes in order, in decimal without leading zeros |
| Addresses.PrintV6Reads | src/ShadowsocksAead.cpp:293-306 | the IPv6 host is eight groups of four hex digits with colons between, and spells the sixteen bytes in order |
| Addresses.PrintV6 | src/ShadowsocksAead.cpp:293-306 | the IPv6 form fills the 40-character buffer exactly |
| Addresses.ParseSsAddress | src/ShadowsocksAead.cpp:271-317 | the field-by-field parser succeeds exactly on payloads that start with a whole address of type 1, 3 or 4, and gives that type, the host those bytes name, the big-endian port and the rest |
| Addresses.ParseMeans | src/ShadowsocksAead.cpp:271-317 | the same of the specified parser, byte by byte |
| Addresses.EncodeSsAddress | src/ShadowsocksAead.cpp:319-350 | what the appending encoder encodes, the parser reads back before any payload; what it rejects is no address the parser can give |
| Addresses.ParseEncode | src/ShadowsocksAead.cpp:271-350 | every address that encodes is parsed back before any payload, its host in printed form |
| Addresses.RoundTripExactly | src/ShadowsocksAead.cpp:271-350 | it comes back unchanged if and only if its host already is in printed form |
| Addresses.EncodeParsed | src/ShadowsocksAead.cpp:271-350 | re-encoding a parsed address gives exactly the bytes consumed |
| RelayControl.MonitorMeans | src/TcpRelaySession.cpp:127-329 | what an accepted log of pcb calls means: made, attached and connected first and once; no use after release; no local release without detaching |
| RelayControl.CloseAllKeeps | src/TcpRelaySession.cpp:312-329 | closing keeps ownership and, when it is the first close, releases the pcb |
| RelayControl.ClientEofKeeps | src/TcpRelaySession.cpp:240-268 | client EOF keeps ownership on all its branches |
| RelayControl.RemoteFinKeeps | src/TcpRelaySession.cpp:270-286 | remote FIN keeps ownership and always ends with no pcb |
| RelayControl.PcbFailedKeeps | src/TcpRelaySession.cpp:384-390 | the error callback keeps ownership although lwIP has freed the pcb |
| RelayControl.ConnectIpKeeps | src/TcpRelaySession.cpp:127-143 | connecting makes one owned pcb or closes |
| RelayControl.ResolvedKeeps | src/TcpRelaySession.cpp:145-156 | a resolve result keeps ownership and never makes a pcb on a closing session |
| RelayUplink.WrittenMoves | src/TcpRelaySession.cpp:171-181 | no packet is cut by the 16-bit length cast |
| RelayUplink.FlushMoves | src/TcpRelaySession.cpp:158-184 | flushing moves bytes from queue to lwIP in order, loses none, and stops early only paused or closing |
| RelayUplink.LoopFollows | src/TcpRelaySession.cpp:80-116 | the decrypt loop follows the decoding chunk by chunk; an exception leaves a prefix |
| RelayUplink.ReadDataKeeps | src/TcpRelaySession.cpp:66-116 | a read completion keeps the uplink invariant in every outcome |
| RelayUplink.RelayedIsPlaintextMinusHeader | src/TcpRelaySession.cpp:101-116 | with an address in the first chunk, what is relayed is the plaintext minus that header |
| RelayDownlink.FrameExtends | src/TcpRelaySession.cpp:186-200 | one more payload extends queue and stream by the same frame |
| RelayDownlink.QueuedKeepsFlow | src/TcpRelaySession.cpp:369-374 | a queued payload adds at most 35 queue bytes per byte of credit it withholds |
| RelayDownlink.CreditOpsExact | src/TcpRelaySession.cpp:220-224 | the pieces of the drain loop fit 16 bits and add up to the deferred credit |
| RelayDownlink.RecvKeepsData | src/TcpRelaySession.cpp:344-375 | a payload keeps the stream invariant, refused or not |
| RelayDownlink.WriteDoneKeepsFlow | src/TcpRelaySession.cpp:209-228 | a completed write keeps counter, pause rule and credit |
| RelayInvariant.StepKeeps | src/TcpRelaySession.cpp:66-390 | every event keeps the whole invariant |
| RelayInvariant.RunKeeps | src/TcpRelaySession.cpp:66-390 | the invariant holds after every run |
| RelayTheorems.PcbOwnership | src/TcpRelaySession.cpp:127-390 | in every reachable state: one pcb at most, made, attached and connected in that order, released once, detached first, unused afterwards; the self-reference is held exactly while it is live |
| RelayTheorems.HalfClose | src/TcpRelaySession.cpp:240-286 | both ends gone closes the session; after client EOF an open session still has its pcb; after the remote's FIN the pcb is gone for good |
| RelayTheorems.ClientToRemote | src/TcpRelaySession.cpp:66-184 | accepted bytes are a prefix of what was asked to be relayed; while open, accepted plus queue is exactly that |
| RelayTheorems.ClientToRemotePlaintext | src/TcpRelaySession.cpp:66-184 | with an address in the first chunk: a prefix of the plaintext minus the header |
| RelayTheorems.SealedByClient | src/TcpRelaySession.cpp:66-184 | end to end: for any stream the client sealed, lwIP holds a prefix of its payload, and all of it once everything arrived and the queue is empty |
| RelayTheorems.SealedByConformingClient | src/TcpRelaySession.cpp:66-184 | both halves for a client with the intended nonce counter, up to 128 chunks |
| RelayTheorems.SplitIndependent | src/TcpRelaySession.cpp:80-94 | open sessions that read the same bytes agree, however the reads were split |
| RelayTheorems.RemoteToClient | src/TcpRelaySession.cpp:186-228 | the wire is always a prefix of one salt and the sealed frames, and with the queue all of it while open; once the salt is there the client decodes a prefix of the remote's payloads, without failure, and all of them once the queue is empty |
| RelayTheorems.BackPressure | src/TcpRelaySession.cpp:186-228 | the counter is the queued size and never exceeds 2^20 + 35 times the deferred credit, hence 2^20 + 35 W for a window W |
| RelayTheorems.CreditConserved | src/TcpRelaySession.cpp:357-374 | while connected, credit granted plus credit deferred is exactly what was received |
| RelayTheorems.WindowNotStuck | src/TcpRelaySession.cpp:202-228 | deferred credit implies a queue above the low-water mark and a write in flight |
| RelayTheorems.ClientDrains | src/TcpRelaySession.cpp:202-228 | before the remote's FIN: if the client takes every buffer, the whole stream is on the wire and the whole window returned |
| RelayTheorems.RecvClosesExactly | src/TcpRelaySession.cpp:344-375 | a payload closes an open session if and only if it is longer than 0x3fff bytes, or it is the first and no salt can be had |
| RelayTheorems.FlushOutcome | src/TcpRelaySession.cpp:158-184 | the flush loop pauses if and only if it meets a lack of room first, and empties the queue if and only if there is room for all |
| RelayTheorems.SingleRead | src/TcpRelaySession.cpp:66-71 | for address literals: one read at most, none while paused, and data waits only while paused |
| RelayTheorems.RemoteCatchesUp | src/TcpRelaySession.cpp:230-238 | a resume with room hands over everything and reads again |
| RelayOverlap.SecondRead | src/TcpRelaySession.cpp:230-238 | exactly which event starts a second read |
| RelayOverlap.HazardArises | src/TcpRelaySession.cpp:331-342 | exactly which event pauses beside an outstanding read: a connect whose flush stalls |
| RelayOverlap.OneReadUnlessHazard | src/TcpRelaySession.cpp:66-71 | a run without such a pause never has two reads |
| RelayOverlap.AtMostTwoReads | src/TcpRelaySession.cpp:66-238 | over every run in which the connection is reported at most once and acknowledgements follow it: never three reads, at most one beside a pause, and before the connection none beside it |
| RelayOverlap.FlushStallsAt | src/TcpRelaySession.cpp:158-184 | when lwIP takes m packets and has no room for the next, exactly those m are handed over and reading is paused |
| RelayOverlap.TwoReadsReachable | src/TcpRelaySession.cpp:66-184 | for every cipher and key, a run with a domain target that ends with two reads and whose every answer lwIP and the socket can give: full-buffer reads while resolving, five packets taken at connect and the sixth stalled, then acknowledgements |
| RelayProgress.PausedIsOwed | src/TcpRelaySession.cpp:158-238 | over every realizable run without an out-of-memory answer, a paused open session has accepted bytes that are unacknowledged, so a sent callback is due |
| RelayProgress.ResumesExactly | src/TcpRelaySession.cpp:158-238 | once the connection is reported, a paused session with no read outstanding can go on if and only if accepted bytes are unacknowledged |
| RelayProgress.MemHalts | src/TcpRelaySession.cpp:172-176 | a realizable run that ends connected and paused by ERR_MEM with nothing unacknowledged, from which no continuation goes on |
| RelayProgress.QueueBounded | src/TcpRelaySession.cpp:66-184 | over every run with reads of at most 8192 bytes, the queue towards lwIP of a session with an address literal and a pcb holds at most one read plus one incomplete frame |
| RelayProgress.ResolvingUnbounded | src/TcpRelaySession.cpp:80-156 | while a name is being resolved the queue has no bound |
| RelayProgress.FinUnbounded | src/TcpRelaySession.cpp:66-286 | nor has it after the remote's FIN |
| RelayClosing.FinTruncates | src/TcpRelaySession.cpp:270-286 | after the remote's FIN, in every later state of every run, the wire is a prefix of what it was followed by the buffer of the write in flight |
| RelayClosing.FinDeliversExactly | src/TcpRelaySession.cpp:202-286 | every payload received can still be read by the client after the FIN if and only if at most one buffer was queued |
| RelayClosing.FirstPayloadLost | src/TcpRelaySession.cpp:186-200 | a first payload queues salt and frame, so a FIN right behind it always cuts it off |
| RelayClosing.LessReadsLess | src/TcpRelaySession.cpp:186-228 | from anything less than the whole stream the client misses a payload |
| RelayClosing.FinStopsClient | src/TcpRelaySession.cpp:158-286 | after the remote's FIN, in every later state of every run, lwIP has accepted nothing more from the client |
| RelayClosing.FinAcceptsExactly | src/TcpRelaySession.cpp:158-286 | at any time after the FIN, everything the client sent has reached lwIP if and only if nothing was queued at the FIN and every chunk decoded since is empty |
| RelayClosing.EofFindsAllAccepted | src/TcpRelaySession.cpp:240-268 | for an address literal with a live pcb, the client's EOF comes when lwIP has accepted the payload of every complete frame the client sent |
| RelayClosing.EofHalfClosesExactly | src/TcpRelaySession.cpp:240-268 | the EOF keeps the pcb if and only if its state allows a shutdown and that succeeds; otherwise the pcb is aborted and the session closes |
| RelayClosing.AbortDropsAccepted | src/TcpRelaySession.cpp:249-261 | a realizable run for every cipher, key and short request: sent and half-closed before the connection is reported, it is accepted, unacknowledged and aborted |
| RelayClosing.ClosingOwnsExactly | src/TcpRelaySession.cpp:80-143 | a closing session comes to own a pcb if and only if a read before the target is known decodes a first chunk without an address and a later first address that is a literal, and a pcb can be had |
| RelayClosing.ClosingOwnsReachable | src/TcpRelaySession.cpp:80-143 | for every cipher and key, a run of two inputs that ends there |
| RelayClosing.RunReads | src/TcpRelaySession.cpp:66-116 | in every run: before the target is known, a closing session has no read outstanding |
| RelayEvents.ClosesExactly | src/TcpRelaySession.cpp:49-390 | for every event, exactly when it closes an open session (a part that does not open, no usable target, a refused packet, a failed resolve, connect, read or write, both ends gone), and whether there is a pcb if it does not |
| RelayEvents.ResolvesExactly | src/TcpRelaySession.cpp:145-156 | after a resolve the session is connected if and only if the resolve succeeded, a pcb can be had and the connect is accepted; otherwise it closes; no pcb is made unless the resolve succeeded |
| RelayEvents.ConnectsToTarget | src/TcpRelaySession.cpp:101-156 | in every reachable state, the only connect ever made is to the first address the client sent |
| RelayEvents.FlushCallsExactly | src/TcpRelaySession.cpp:158-184 | a flush makes one write for each packet taken, then sends the output on, after a write that ran out of memory if that stopped it, or releases the pcb after a refused one |
| RelayEvents.RunRemembers | src/TcpRelaySession.cpp:49-390 | over every run: the receive key is that of the salt that arrived, the end-of-stream flags are set exactly by those events, and the bytes read and payloads received are those of the events |
| RelayEvents.RecvCreditsExactly | src/TcpRelaySession.cpp:369-374 | a payload is credited at once if and only if the client queue is then within 1 MiB, and deferred otherwise |
| RelayEvents.WriteReleasesExactly | src/TcpRelaySession.cpp:209-228 | a completed write returns all deferred credit if and only if there is a pcb and the queue is then below 256 KiB |
| RelaySession.TcpRelaySession.FlushLwip | src/TcpRelaySession.cpp:158-184 | the loop computes the specified flush |
| RelaySession.TcpRelaySession.OnConnect | src/TcpRelaySession.cpp:331-342 | keeps the object in a reachable state and takes the specified step |
| RelaySession.TcpRelaySession.OnSend | src/TcpRelaySession.cpp:230-238 | keeps the object in a reachable state and takes the specified step |
| RelaySession.TcpRelaySession.ProcessDecryptedChunk | src/TcpRelaySession.cpp:101-125 | the method takes the specified step, exceptions included |
| RelaySession.TcpRelaySession.DecryptFrames | src/TcpRelaySession.cpp:80-92 | the decrypt loop computes the specified decoding, leftover and exception |
| RelaySession.TcpRelaySession.OnRead | src/TcpRelaySession.cpp:80-97 | decrypt loop, flush and next read keep the object in a reachable state and take the specified step |
| RelaySession.TcpRelaySession.DrainCredit | src/TcpRelaySession.cpp:218-225 | the loop grants exactly the deferred credit |
| RelaySession.TcpRelaySession.OnWrite | src/TcpRelaySession.cpp:209-228 | the completion, with its drain loop, keeps the object in a reachable state and takes the specified step |
| RelaySession.TcpRelaySession.Dispatch | src/TcpRelaySession.cpp:66-390 | every enabled event is served, keeps the object in a reachable state and takes the specified step |
| RelaySession.TcpRelaySession.ClientQueueSize | src/TcpRelaySession.cpp:186-228 | the counter of the object is the size of its queue and within 2^20 + 35 times the credit withheld |
| RelaySession.TcpRelaySession.CreditOwed | src/TcpRelaySession.cpp:218-225 | what the object withholds is exactly what was received and not granted, and a write is in flight that will release it |
| RelaySession.TcpRelaySession.HoldsPcb | src/TcpRelaySession.cpp:288-329 | the object holds a pcb exactly while the calls made on it leave it live, and never after the remote's FIN |
| RelaySession.TcpRelaySession.QueuedForRemote | src/TcpRelaySession.cpp:158-184 | on an open object the queue is what the client sent and lwIP has not accepted |
| DnsCodec.SkipDnsName | src/LwipRuntime.cpp:94-118 | the loop stays in bounds, terminates and computes the specified end |
| DnsCodec.SkipSound | src/LwipRuntime.cpp:94-118 | a skipped name is a printed list of at most 255 labels with its terminator |
| DnsCodec.SkipComplete | src/LwipRuntime.cpp:94-118 | every such printed name is skipped exactly, whatever surrounds it |
| DnsCodec.SkipTooLong | src/LwipRuntime.cpp:112-114 | a name of more than 255 labels is refused |
| DnsCodec.RecordSound | src/LwipRuntime.cpp:170-180 | a record that is read is a printed record with those fields |
| DnsCodec.RecordComplete | src/LwipRuntime.cpp:170-180 | every printed record is read with its own fields |
| DnsCodec.SkipAllQuestions | src/LwipRuntime.cpp:162-168 | the question loop computes the specified end |
| DnsCodec.FindFirstAnswer | src/LwipRuntime.cpp:170-202 | the answer loop computes the specified answer |
| DnsCodec.ParseDnsResponse | src/LwipRuntime.cpp:151-203 | the parser computes the specified address bytes for every packet |
| DnsCodec.ParseSound | src/LwipRuntime.cpp:151-203 | an address comes only from a packet made of a good header, the announced questions and answers up to a first match |
| DnsCodec.ParseComplete | src/LwipRuntime.cpp:151-203 | every such packet gives its first match |
| DnsCodec.ParseExactly | src/LwipRuntime.cpp:151-203 | the two together: an address is returned if and only if the packet has that form |
| DnsCodec.AppendLabels | src/LwipRuntime.cpp:129-144 | the label loop prints the host's labels or reports a bad one |
| DnsCodec.MakeDnsQuery | src/LwipRuntime.cpp:120-149 | the printer computes the specified query or reports a bad label |
| DnsCodec.QueryExactly | src/LwipRuntime.cpp:120-149 | a query is made if and only if the host spells legal labels, and is then these bytes: identifier, recursion desired, one question, the labels, the type and class 1 |
| DnsCodec.HostLabelsExactly | src/LwipRuntime.cpp:129-144 | a query carries given labels if and only if the host spells them with dots, with or without a final one |
| DnsCodec.QuerySkipsExactly | src/LwipRuntime.cpp:94-149 | the parser's skipper ends at the query's type and class, which read back, if and only if there are at most 255 labels |
| DnsCodec.EchoParses | src/LwipRuntime.cpp:151-203 | a response that echoes the question and then answers parses to the first match |
| DnsTable.AtMostOnce | src/LwipRuntime.cpp:391-458 | over every interleaving no callback is posted twice and no pcb removed twice |
| DnsTable.ExactlyOnce | src/LwipRuntime.cpp:528-548 | with free identifiers, no stop and normal returns, every resolve is posted or in flight with its timer armed, never both, never neither |
| DnsTable.CompletesOne | src/LwipRuntime.cpp:528-548 | a completion, by a response, a timer or a failed send, runs one callback and removes one pcb, both for the first time, and touches no other query |
| DnsTable.GoodMessageAnswers | src/LwipRuntime.cpp:481-495 | every good message gives the query's callback its address |
| DnsTable.ResponseAnswers | src/LwipRuntime.cpp:481-495 | a response posts exactly one callback, with an address if and only if the packet is a good message that gives it |
| DnsHistory.PostsExactly | src/LwipRuntime.cpp:391-548 | for every event, exactly which callbacks are posted and with what |
| DnsHistory.EveryPostExplained | src/LwipRuntime.cpp:391-548 | over every run: an address given to a callback is the literal it asked for or the address in a good response for its identifier and type; an error is one that happened to it |
| DnsTable.SecuredExactly | src/LwipRuntime.cpp:391-458 | a resolve runs its callback or waits with its own timer if and only if it is a literal, has no server or no pcb, or has a server, a free identifier and printable labels |
| DnsTable.MisdirectsExactly | src/LwipRuntime.cpp:427-446 | a resolve runs another query's callback if and only if its send fails under a taken identifier, and then reports that failure to the query in flight |
| DnsTable.LostForever | src/LwipRuntime.cpp:391-548 | a callback that is neither run nor in flight is never run, whatever happens later |
| DnsTable.StopLosesExactly | src/LwipRuntime.cpp:252-274 | a stop loses exactly the callbacks in flight |
| DnsTable.LeaksExactly | src/LwipRuntime.cpp:413-446 | at every event, the pcbs that are neither in the table nor removed grow by exactly that of a query that finds its identifier taken |
| DnsTable.LeakedForever | src/LwipRuntime.cpp:252-548 | such a pcb is never removed, whatever happens later |
| DnsTable.CallbacksLost | src/LwipRuntime.cpp:391-458 | runs from the start that lose a callback to a taken identifier, to a rejected label and to an unreadable server, and one that fails the wrong query |
| DnsTable.StaleTimerHarmless | src/LwipRuntime.cpp:448-457 | a timer armed before a stop completes nothing after it |
| DnsTable.LwipRuntime.AsyncResolve | src/LwipRuntime.cpp:391-458 | takes the specified step, exceptions included, and secures the callback exactly under that condition |
| DnsTable.LwipRuntime.SendQuery | src/LwipRuntime.cpp:427-457 | registering, sending and arming take the specified step |
| DnsTable.LwipRuntime.DnsRecv | src/LwipRuntime.cpp:481-495 | runs the query's callback for the first time, with the address if the packet is a good message for its identifier and type and with a bad response otherwise |
| DnsTable.LwipRuntime.StopAll | src/LwipRuntime.cpp:252-274 | empties the table and removes every pcb it held, none twice |
| UdpTable.KeyExactly | src/UdpRelaySession.cpp:11-15 | two keys are equal if and only if client endpoint, host and port are, whatever the host contains |
| UdpTable.ReplyIsolation | src/UdpRelaySession.cpp:126-201 | over every run each pcb is in one entry or removed once, and every reply went to the client its pcb was made for |
| UdpTable.DatagramIsolation | src/UdpRelaySession.cpp:141-161 | the entry a datagram uses belongs to its own client, host and port |
| UdpTable.ReplyKindExactly | src/UdpRelaySession.cpp:126-161 | the entry was made by a datagram of that client, and a reply carries another address type than the datagram's target if and only if exactly one of the two targets is a domain |
| UdpTable.ReplyKindDiffers | src/UdpRelaySession.cpp:126-161 | a run in which a reply to the address 1.2.3.4 names the domain "1.2.3.4" |
| UdpTable.ReplyReadsBack | src/UdpRelaySession.cpp:126-139 | the client opens a reply and finds the sender's address and the payload |
| UdpTable.ReplyCarriesSender | src/UdpRelaySession.cpp:126-139 | the client reads the sender's address, of the sender's version, and port, or for a domain entry its own name and the sender's port; nothing is sent exactly when there is no such encoding |
| UdpTable.UdpRelaySession.MappingFor | src/UdpRelaySession.cpp:141-161 | the entry returned is the client's own; a new one is made exactly when there is none and a pcb can be had |
| UdpTable.UdpRelaySession.EraseMapping | src/UdpRelaySession.cpp:175-186 | the entry's pcb is removed for the first time and is in no entry any more |
| UdpTable.UdpRelaySession.OnUdpRecv | src/UdpRelaySession.cpp:126-201 | the reply goes to the client for which the pcb it arrived on was created |
| UdpTable.UdpRelaySession.StopSession | src/UdpRelaySession.cpp:43-59 | every pcb ever made has then been removed exactly once |
| Reconnect.Wait | src/OpenVpnClient.cpp:353-355 | the sliced wait sleeps the whole delay unless a stop is noticed |
| Reconnect.LogExactly | src/OpenVpnClient.cpp:301-376 | the whole log, round by round: the attempt with its algorithms, the downgrade in the first round that wants it, the wait with its backoff; nothing after a round not alive at its start, a refused downgrade, a stop or a refused configuration |
| Reconnect.DowngradesExactly | src/OpenVpnClient.cpp:321-334 | a downgrade happens if and only if preferred algorithms are in use and some round taken wants it |
| Reconnect.TakenExactly | src/OpenVpnClient.cpp:305-376 | the rounds taken are alive at their start and none follows the end of one |
| Reconnect.BackoffValues | src/OpenVpnClient.cpp:303-304 | the waits are 2000, 4000, 8000, 16000 and then 30000 milliseconds |
| Reconnect.TakeTurn | src/OpenVpnClient.cpp:306-374 | one turn performs the acts of that description, an exception in the downgrade included, and carries on its delay and flag |
| Reconnect.ReconnectLoop | src/OpenVpnClient.cpp:301-376 | the loop performs the specified acts |
| Reconnect.ReconnectSchedule | src/OpenVpnClient.cpp:301-376 | for any answers: completed waits last exactly min(2000 * 2^k, 30000) ms, at most one downgrade, attempts at most waits plus two |
| Reconnect.KeepsTrying | src/OpenVpnClient.cpp:301-376 | the loop never gives up by itself: undisturbed, each round is one attempt followed by a wait, the downgrade or both |

## Left out

- RelayEvents.ConnectsToTarget: for a domain, the address its name resolved to is the resolver's answer and is not recorded; the port and the name are.
- lwIP, Asio, mbedTLS and OpenVPN3 internals: foreign code, present only through their answers.
- The global mutex, threads and destruction order: callbacks are taken one at a time; the destructor's own release is not modelled.
- RelayOverlap.TwoReadsReachable: the length of lwIP's segment queue is constrained only in being empty or not; the run keeps it far below the limit. The states of lwIP's TCP machine appear only as the answer that a shutdown is allowed.
- The shared read buffer under two outstanding reads: a completion's data is whatever it finds there.
- A response on the pcb of a query whose identifier was already in flight: that query object no longer exists.
- Elapsed time: timers may fire whenever they are armed; the two-minute UDP idle time, the five-second DNS time-out and the 10 ms lwIP tick are not modelled.
- DnsCodec.ParseDnsResponse: stops at the address bytes; the word order of the IPv6 address macro belongs to lwIP.
- RelaySession.TcpRelaySession: computes frames with the codec functions rather than through a ShadowsocksAeadSession object; that class is proved to compute the same functions.
- UdpTable.KeyExactly: identifies a client address with its printed text, taken to be injective and free of bars.
- UDP payload sizes and the 16-bit cast on datagram length.
- JSON configuration, port checks, netmasks, tun configuration, inbound listeners, instance management and logging: only easy members.
