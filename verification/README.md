# mpfpv in Dafny

mpfpv is a UDP relay VPN: a client sends every packet over several network interfaces, a server leases virtual
addresses to clients and relays packets between them, and each side drops the copies it has already seen. This project
models the parts in which that can go wrong and proves what they promise: the deduplication window, the server's lease,
session and route tables, the lease protocol over an unreliable network, end-to-end delivery, path failover and socket
recycling, the incremental path table, the IPv4 checksum and the packet formats.

## How the model is built

- `Basics.dfy`: machine integers and identifiers. uint16, uint32 and byte are subset types, so every assignment that
  could overflow is an obligation; where the source wraps, the model says `% TWO32`.
- `Dedup.dfy`, `DedupTheory.dfy`: the deduplicator as classes over a bit array changed in place, the meaning of one
  arrival (`Observe`), and its comparison with the set of numbers seen.
- `Packet.dfy`, `Checksum.dfy`: byte formats and the in-place checksum.
- `Allocation.dfy`, `ServerModel.dfy`: the address search, and every locked server handler as a function from state to
  state and datagrams. `Server.dfy` carries the handlers out on the fields of a class, each method proved equal to its
  function. `ServerInvariants.dfy`, `ServerForwarding.dfy`, `ServerHealth.dfy`, `Registration.dfy`, `Sessions.dfy`,
  `Accounting.dfy`, `Administration.dfy`, `ServerWindows.dfy` and `Addresses.dfy` prove properties of the functions,
  over single steps and whole runs.
- `Client.dfy`, `Lease.dfy`, `EndToEnd.dfy`, `Delivery.dfy`, `Streams.dfy`: the client, and distributed systems made of
  clients, server and a network that may lose, duplicate and reorder every datagram. `Deletion.dfy` follows one client
  that an administrator deletes, `Misdelivery.dfy` a packet that reaches the wrong client.
- `PathModel.dfy`, `Failover.dfy`, `Interfaces.dfy`, `SenderRuns.dfy`, `Multipath.dfy`: one path as a timed state
  machine, the choice of the active path, the interface diff, whole runs of a sender, and the classes that hold them.

Conventions. Time is an integer passed in. A handler that holds a lock is one atomic step. Go's unordered map iteration
is an explicit order (`Io.order`) or an arbitrary pick; whether a socket write succeeds is an explicit set of reachable
addresses (`Io.ok`). The IP pool file is a map. A 64-bit bitmap word is the set of its one-bits, so `|=`, `&^=` and `&`
with a one-bit mask are union, difference and membership; the split of an index into word and bit is the source's.
IPv4 addresses are their big-endian 32-bit values, 0 being 0.0.0.0; strings on the wire are byte sequences.

## Results that are not obvious from the code

- The deduplicator is exact on every run in which arrivals stay in range if and only if its window size divides 2^32
  (`ExactIffDivides`). For any other size there is a two-packet run across the wrap in which a new packet is dropped.
- Of all steps the server takes, administration included, the only one that can make pool, sessions and routes
  disagree is a session-opening heartbeat that claims an address it may not claim; the equivalence is
  `StepConsistent`, and `RunConsistent` for whole runs. An administrator assigning 0.0.0.0 does no such harm.
- In all runs cleanup removes exactly the sessions not seen within the client timeout if and only if addresses do not
  outlive sessions (`CleanupExactIff`); otherwise, after a single heartbeat, a stale session is kept alive by its
  address. The configuration check does not compare the two timeouts.
- A heartbeat survives encoding and decoding if and only if the device name has no NUL and the interface name is at most
  255 bytes long (`HeartbeatRoundTrip`); the source writes the length into one byte without a check.
- A new address list never hides a change from the interface watcher if and only if it names no address twice
  (`NoHiddenChangeIff`), and an old one never raises a false alarm under the same condition (`NoFalseAlarmIff`). The
  scan drops prefix lengths, so an address configured with two of them is listed twice; the incremental update agrees
  with a rebuild whatever came before if and only if that does not happen in the server's family (`AgreesIffClean`).
  For keeping the path and its RTT history that is not enough, because both families are compared: if the addresses
  stay the same, the path is kept exactly if neither list changes its length, and a duplicate IPv6 address can cost an
  IPv4 path its history (`DiffAgreesWithRebuild`, `NeverDisturbedIff`, `OtherFamilyCostsHistory`).
- An administrative address change is told to the client at every address it is known at, and a client that hears of it
  is accepted from its new address on (`UpdateNotifies`, `NotifiedClientFollows`). A change whose notification is lost
  does not heal by itself: after the session has expired, a heartbeat that still carries the old address opens a session
  that contradicts the lease (`UnnoticedUpdate`).
- A client that returns with its counter started anew is heard from its first packet after expiry, a server restart or
  the removal of its device, but not after DeleteClient, which keeps the deduplication window. Exactly those packets
  are then lost whose slots were filled before, unless the first number is a whole window below the highest one
  (`ReturningClientHeardIff`, `DeletedClientLoses`); `DeletedClientIsSilenced` is the run in which it happens.
- Everything a client writes to TUN, in every run without administration, is addressed to its own lease if and only if
  no client sits behind the ReplyPort another one may announce on its host (`OwnTrafficIff`), as can happen behind a
  shared NAT address. This is under the premise that no client's host sends data packets under another one's ID;
  `SpoofedDataComesBack` shows what else happens in failover mode.
- A receiver without a TUN device still marks packets as seen: written are exactly the packets whose first copy found
  the device open, and a later copy does not make up for it (`DeliveredOnce`).

Where `docs/architecture.md` and the code differ, the model follows the code: bytes 6-7 of the heartbeat ack carry the
MTU (the document says reserved); deduplication has one lock per client (the document says one for all); and in failover
mode the reply goes to the last address that sent data, or to any known address if there was none.

## Model

| member | source | states |
|---|---|---|
| Dedup.Deduplicator.IsDuplicate | internal/protocol/dedup.go:34-124 | one arrival on the in-place bit arrays answers and changes the client's window as `Observe` says, creates a missing client, and leaves every other client's window alone |
| Dedup.Deduplicator.Reset | internal/protocol/dedup.go:128-132 | forgets one client and nothing else |
| Dedup.ClientState.SlideForward | internal/protocol/dedup.go:79-92 | the clearing loop empties exactly the slots of the numbers the window moves over, wrap-around included |
| DedupTheory.ObserveRefinesNote | internal/protocol/dedup.go:64-123 | for every input, restarts and wrap-around included, the bitmap answers as, and goes on denoting, the set of numbers accepted since the last reset that lie in the window |
| DedupTheory.FarArrivalStartsAfresh | internal/protocol/dedup.go:69-86 | a jump of at least the window size in either direction leaves the state of a first arrival, so the sign given to a distance of exactly 2^31 does not matter |
| DedupTheory.ExactlyOnce | internal/protocol/dedup.go:57-124 | over unbounded runs of unbounded numbers sent mod 2^32, exactly the first copy of each number is let through |
| DedupTheory.RunRefinesNotes | internal/protocol/dedup.go:34-124 | over any arrivals whatever, in range or not, restarts and wrap-arounds included, the window answers as the set of numbers accepted since the last reset, and goes on denoting it |
| DedupTheory.RestartedStream | internal/protocol/dedup.go:94-123 | of a counter that starts anew without a reset, exactly the packets are dropped whose slots were filled before, none if the first number makes the window start over |
| DedupTheory.RestartedStreamLoses | internal/protocol/dedup.go:94-123 | the same in terms of the numbers seen before |
| DedupTheory.ExactIffDivides | internal/protocol/dedup.go:134-147 | all in-range runs are exact if and only if the window size divides 2^32 |
| Packet.EncodeHeader | internal/protocol/packet.go:16-24 | writes the eight header bytes and no other byte |
| Packet.HeaderRoundTrip | internal/protocol/packet.go:16-42 | a header decodes to itself if and only if it has the current version and a 4-bit type |
| Packet.HeaderLayout | internal/protocol/packet.go:16-24 | which byte of the header holds what, numbers big-endian |
| Packet.EncodeHeartbeatWithName | internal/protocol/packet.go:45-56 | writes the fixed part and as much of the name as fits, and returns the length |
| Packet.AppendPath | internal/transport/multipath.go:275-299 | one heartbeat copy is the base followed by the per-path suffix, counters truncated to their field widths |
| Packet.DecodeHeartbeat | internal/protocol/packet.go:61-107 | the separator scan computes `ParseHeartbeat` on every byte string, without reading out of bounds |
| Packet.PathLayout | internal/transport/multipath.go:275-299 | which byte of the per-path suffix holds what |
| Packet.PathNeedsAllItsBytes | internal/protocol/packet.go:83-104 | a path record is read whatever follows it, and ignored if it is cut short |
| Packet.HeartbeatRoundTrip | internal/protocol/packet.go:45-122 | fixed part, device name and path record are all read back if and only if the name has no NUL and the interface name is at most 255 bytes |
| Packet.BareHeartbeatRoundTrip | internal/protocol/packet.go:45-122 | the same without a path record |
| Packet.AckRoundTrip | internal/protocol/packet.go:124-148 | every ack is read back unchanged |
| Checksum.RecalcIPv4Checksum | internal/client/client.go:733-753 | the in-place loops, in uint32 without overflow, produce `Checksummed` inside the slice and change nothing outside it |
| Checksum.ChecksumCorrect | internal/client/client.go:733-753 | after recalculation the one's complement sum over the header, as RFC 1071 defines it, is all ones, whenever the header length is at least 20 and within the packet; otherwise nothing changes |
| Checksum.OnlyTwoBytesChange | internal/client/client.go:733-753 | only bytes 10 and 11 change |
| Checksum.FoldIsOnesSum | internal/client/client.go:741-749 | adding first and folding at the end equals adding with end-around carry at every step |
| Checksum.RewriteCorrect | internal/client/client.go:296-305 | a registered client's packet leaves with its virtual address as source, the destination and payload unchanged and a valid checksum |
| Allocation.FindFree | internal/server/server.go:685-714 | the uint32 search loop, shift by 32 included, finds the first free address between network and broadcast |
| Allocation.SubnetFits | internal/server/server.go:687-699 | base plus offset never leaves 32 bits, for every prefix length from 0 to 32 |
| Allocation.NewLeaseIsLowestFree | internal/server/server.go:675-714 | a new lease is the lowest host address that is neither leased nor the server's |
| Allocation.FailsOnlyWhenExhausted | internal/server/server.go:663-714 | allocation fails exactly when there is no lease and no subnet or no free host |
| Allocation.EnoughHosts | internal/server/server.go:675-714 | by pigeonhole, allocation succeeds while leases plus one are fewer than the hosts |
| Server.RelayServer.constructor | internal/server/server.go:86-133 | a new server has empty tables and the pool of the file |
| Server.RelayServer.AllocateIP | internal/server/server.go:653-715 | returns the existing or lowest free lease and records name, lease and file as `Allocated` says |
| Server.RelayServer.HandlePacket | internal/server/server.go:276-312 | counting and dispatch act on the fields as `OnPacket`, with an order that lists the recipient's addresses |
| Server.RelayServer.HandleHeartbeat | internal/server/server.go:315-462 | the heartbeat handler changes sessions, routes, pool and file, and answers, as `OnHeartbeat` |
| Server.RelayServer.RemoveStaleAddrs | internal/server/server.go:440-448 | the loop removes exactly the other addresses recorded for the interface |
| Server.RelayServer.HandleData | internal/server/server.go:465-548 | deduplication, validation and forwarding act as `OnData` |
| Server.RelayServer.SendTo | internal/server/server.go:551-612 | writes to the addresses the send mode selects, counting only successful writes, as `SendToClient` |
| Server.RelayServer.ForwardFromTun | internal/server/server.go:227-272 | TUN packets are forwarded as `OnTun` |
| Server.RelayServer.CleanUp | internal/server/server.go:797-843 | the nested expiry loops and the later route and window removal amount to `Cleanup` |
| Server.RelayServer.UpdateIP | internal/server/webapi.go:237-301 | refuses for the first reason that applies, else moves lease, route and session and notifies every address |
| Server.RelayServer.RemoveDevice | internal/server/webapi.go:305-336 | removes lease, route, session and window of a device |
| Server.RelayServer.RemoveClient | internal/server/webapi.go:123-153 | removes session, route and lease of a client |
| ServerInvariants.StepConsistent | internal/server/server.go:341-406 | whatever the step, the tables stay consistent if and only if the step is legal, and the file always holds the pool |
| ServerInvariants.RunConsistent | internal/server/server.go:341-406 | over any run from a good file, every state is consistent if and only if every session-opening heartbeat claimed what it may |
| ServerInvariants.RegisterConsistent | internal/server/server.go:359-406 | opening a session keeps the tables consistent exactly when the client may claim its address |
| ServerInvariants.CleanupConsistent | internal/server/server.go:820-842 | removing routes by the address of an expired session never removes the route of a live one |
| ServerInvariants.ReassignConsistent | internal/server/webapi.go:255-293 | moving a lease to an unused address keeps pool, routes and session in step |
| ServerInvariants.DeleteConsistent | internal/server/webapi.go:123-153 | deletion disturbs no other client |
| ServerInvariants.RestartConsistent | internal/server/server.go:718-752 | a restarted server has the same leases |
| ServerForwarding.ForwardingFaithful | internal/server/server.go:465-548 | what goes out to a client is the received packet unchanged, from the sender's registered address to the recipient's session address; packets for the server reach no client |
| ServerForwarding.HolderIsReached | internal/server/server.go:535-612 | a fresh packet from a registered source reaches the client that holds its destination: in redundant mode every writable address, in failover mode exactly the one its last data came from, or the first if there was none |
| ServerForwarding.TunHolderIsReached | internal/server/server.go:235-271 | a packet from the server's TUN device reaches the client that holds its destination in the same way |
| ServerForwarding.CopiesGoToRecipient | internal/server/server.go:551-612 | every copy is addressed to the recipient as it is known, or to its ReplyPort on such a host |
| ServerForwarding.TunFaithful | internal/server/server.go:247-271 | packets of the server itself go, under client ID 0, to the holder of their destination only |
| ServerHealth.StepHealthy | internal/server/server.go:288-300 | every step keeps: no address seen after its session, no interface name twice in a session, byte counts conserved from addresses to sessions to totals |
| ServerHealth.RunHealthy | internal/server/server.go:276-312 | the same in every state of every run with a monotone clock |
| ServerHealth.HeardFromNicUnique | internal/server/server.go:438-454 | recording an address leaves no two addresses with the same interface name |
| ServerHealth.CleanupExactIff | internal/server/server.go:797-826 | in every state of every run, cleanup leaves exactly the sessions seen within the client timeout, and the addresses seen within theirs, if and only if the configured timeouts do not let addresses outlive sessions |
| ServerHealth.ExpiredIsForgotten | internal/server/server.go:832-842 | an expired session leaves neither route nor deduplication window behind |
| Sessions.HeartbeatRenewsSession | internal/server/server.go:408-454 | an accepted heartbeat of a known client leaves every other address in place, with its record, if and only if it is not one of the same interface; the source address is renewed, mode, port and name follow the heartbeat, the rest of the session and all other sessions stay |
| Sessions.HeartbeatOpensSession | internal/server/server.go:359-454 | the whole session that an accepted heartbeat of an unknown client opens, prefix length included |
| Sessions.NameIsRemembered | internal/server/server.go:653-715 | the device name given with a new lease is in the file and survives restarts |
| Sessions.SilentHeartbeats | internal/server/server.go:315-337 | malformed heartbeats and the reserved ID are not answered and change only byte counts |
| Sessions.DataRenewsSession | internal/server/server.go:503-514 | accepted data renews the times of session and source address and marks the address for replies, and changes nothing else but byte counts |
| Sessions.ServerIsReached | internal/server/server.go:521-534 | accepted data for the server's own address goes to its TUN device and nowhere else |
| Sessions.StaleDataIsDropped | internal/server/server.go:465-506 | data that was seen before or comes from no registered source is only counted and noted in the window |
| Sessions.SurvivorsKeepSettings | internal/server/server.go:805-830 | a session that survives cleanup loses only expired addresses |
| Sessions.OnlyExpiredIsForgotten | internal/server/server.go:826-842 | routes and windows removed by cleanup belong to expired sessions |
| Accounting.ReceivedIsCounted | internal/server/server.go:288-300 | totalRx counts every packet with a header, whatever becomes of it |
| Accounting.HolderIsCharged | internal/server/server.go:572-597 | a forwarded packet is charged to its recipient and to totalTx once for every address written to, and to nobody else |
| Accounting.TunIsCharged | internal/server/server.go:261-271 | the same for packets from the server's TUN device, each of which moves the server's counter on |
| Accounting.NothingElseIsCharged | internal/server/server.go:578-584 | heartbeats, dropped data and data for the server itself are charged to nobody |
| Administration.RefusalHasReason | internal/server/webapi.go:237-275 | a refused address change names a reason that applies and changes nothing; otherwise the lease moves to an address in the subnet, not the server's and not in use |
| Administration.UpdateNotifies | internal/server/webapi.go:287-298 | moving the lease of a client that is online sends one OK ack with the new address, prefix length and MTU to each of its addresses and nothing else; moving any other lease sends nothing |
| Administration.UpdateMoves | internal/server/webapi.go:255-286 | lease, route and session of the client move together, and nobody else's |
| Administration.NotifiedClientFollows | internal/client/client.go:538-563 | a client that hears of the change holds the new address and is accepted from there; one that still frames under another address is refused |
| Administration.DeletedDeviceIsGone | internal/server/webapi.go:305-336 | nothing is left of lease, name, session, route and window, and nobody else's is touched |
| Administration.DeletedClientIsGone | internal/server/webapi.go:123-153 | the same for a deleted client, apart from its window |
| Administration.RestartRemembers | internal/server/server.go:718-779 | a restarted server has the same leases and names, and nothing else |
| Registration.HeartbeatAnswer | internal/server/server.go:315-461 | which of the three answers a heartbeat gets, with which address, prefix length and MTU, and that any but an OK changes only the ack counter; an OK renews session and source address |
| Registration.AddressIsSticky | internal/server/server.go:662-669 | a device gets its old address again, with or without a session |
| Registration.NewClientGetsAddress | internal/server/server.go:359-374 | a new client gets a free host address while there are enough |
| Registration.UnnoticedUpdate | internal/server/webapi.go:283-298 | if the client never hears of an address change, its first heartbeat after expiry keeps the tables consistent if and only if it carries no address or already the new one |
| Registration.ReturningClientHeardIff | internal/protocol/dedup.go:126-132 | after expiry, restart or removal of the device every packet of a client whose counter starts anew is heard; after DeleteClient exactly those above maxSeq, in free slots, or following a first number far below maxSeq |
| Registration.DeletedClientLoses | internal/server/webapi.go:142-152 | after DeleteClient a packet is lost exactly if its number was heard before and the window does not start over |
| ServerWindows.DeletedInRunLoses | internal/server/webapi.go:142-152 | in every state of every run of the server the window denotes what arrived since it was created, and that is what a deleted client loses |
| Deletion.DeletedClientIsSilenced | internal/server/webapi.go:142-152 | a client that registers, sends, is deleted, starts anew and registers again is not heard with its first packet, although the server accepts its source |
| Deletion.DeletedClientExample | internal/server/webapi.go:142-152 | this happens to the first client of a new server with the default settings |
| Client.VpnClient.HandleHeartbeatAck | internal/client/client.go:538-580 | only OK acks change the memory; the TUN device is created at most on the first |
| Client.VpnClient.HandleData | internal/client/client.go:583-608 | a data packet is written to TUN exactly if it is no duplicate and the device exists |
| Client.VpnClient.SendHeartbeat | internal/client/client.go:361-390 | the datagram carries the remembered address and a fresh number |
| Client.VpnClient.FrameTunPacket | internal/client/client.go:277-318 | in place: skip, or rewrite, checksum and header, with a fresh number |
| Client.DataPacketCorrect | internal/client/client.go:287-318 | the server reads back ID, number, leased source and destination of a framed packet |
| Client.FramesExactlyIPv4 | internal/client/client.go:279-290 | exactly the IPv4 packets read from TUN are framed, as IPv4 packets of the same length |
| Client.HeartbeatCarriesAddress | internal/client/client.go:361-421 | whatever per-path data follows, the server reads back the fields the client put in |
| LeaseProtocol.ActionKeepsLeases | internal/server/server.go:315-462 | one action of client, network or server keeps the protocol invariant and changes no lease |
| LeaseProtocol.LeasesAreSafe | internal/server/server.go:315-462 | in every run with loss, duplication, reordering and restarts, OK acks and heartbeats in flight carry 0.0.0.0 or the client's lease, no conflict is ever reported, leases never change, and no two clients use one address |
| LeaseProtocol.ExchangeRegisters | internal/client/client.go:538-563 | one undisturbed heartbeat exchange registers the client at the address of its session, a new client getting one while there is room, with the server's prefix length and MTU, and the server then accepts the data packets it frames |
| LeaseProtocol.RefusedLearnsNothing | internal/client/client.go:565-576 | a refused client keeps its address and is not registered by the answer |
| EndToEnd.ClientsWriteOwnTraffic | internal/client/client.go:583-608 | in every run without administration, each forwarded copy going to whoever owns the address it is written to: all a client ever writes to TUN is addressed to its own lease and comes from the lease of its sender, and no other client uses these addresses, if no client owns a ReplyPort of another |
| Misdelivery.OwnTrafficIff | internal/server/server.go:572-612 | for all configurations, pool files and runs that is so if and only if no client owns an address that another may announce as its ReplyPort |
| Misdelivery.SpoofedDataComesBack | internal/server/server.go:508-512 | in failover mode one packet sent under a client's ID from any address makes the server write to that address |
| Addresses.PacketLearns | internal/server/server.go:414-454 | the server knows a session only at addresses that sent a heartbeat or an accepted data packet under its ID |
| EndToEnd.ForwardsGoodParcels | internal/server/server.go:465-548 | what the server forwards goes to the holder of the lease that is its destination, from the lease of the client in its header |
| Delivery.RelaysUnchanged | internal/server/server.go:546-612 | in any state whatever, data packets are forwarded byte for byte or not at all |
| Delivery.DeliveredOnce | internal/client/client.go:583-608 | through redundant sending, several addresses, ReplyPort copies and resets of the relay's windows: no packet is written to TUN twice, and written, with the payload its sender gave them, are exactly the packets whose first copy found the TUN device open. That all packets have different numbers follows from the counters of clients and server |
| Delivery.OpenTunMissesNothing | internal/client/client.go:598-607 | if the device was open at every arrival, these are all the packets that arrived |
| Streams.TunStreamIsWritten | internal/server/server.go:261-271 | packets read from the server's TUN device one after the other are all written by a client that gets them in order, across any number of wrap-arounds |
| Streams.ClientStreamIsWritten | internal/client/client.go:287-318 | the same for packets a client reads from its TUN device |
| PathModel.AverageIsMean | internal/transport/multipath.go:813-822 | the average is the total divided by the number of samples, truncated toward zero |
| PathModel.AverageBounds | internal/transport/multipath.go:813-822 | the truncated average lies between any bounds of the samples |
| PathModel.SamplesAreRecentHistory | internal/transport/multipath.go:330-335 | the samples are the last ten of the full history and the RTT their average, through recycling |
| PathModel.RecyclesAreSpaced | internal/transport/multipath.go:746-789 | two recycles of a path are more than 10 s apart |
| PathModel.RecyclesBackOff | internal/transport/multipath.go:758-777 | without recovery, each recycle after the third is more than 60 s after every earlier one |
| PathModel.NoRecycleAfterAck | internal/transport/multipath.go:766-769 | no recycle within 5 s of an RTT update, even if the path was marked down in between |
| PathModel.SilentPathIsRecycled | internal/transport/multipath.go:766-782 | a path silent for more than 5 s and not given up is recycled exactly when its last recycle is more than 10 s ago |
| PathModel.GivenUpPathIsRetried | internal/transport/multipath.go:758-776 | a path given up after three attempts is down, and unless an answer or a failing write revives it, it is retried exactly when its last recycle is more than 60 s ago |
| PathModel.CheckWithoutRecycle | internal/transport/multipath.go:766-782 | a check that does not recycle takes a path down if it was silent for more than 5 s after three attempts, and otherwise changes nothing |
| PathModel.RecycledIsActive | internal/transport/multipath.go:722-729 | a recycled path is active and keeps its RTT history |
| PathModel.FifthMissTakesDown | internal/transport/multipath.go:352-367 | the fifth miss since the last answer takes a path down, the first four do not |
| PathModel.AckRevives | internal/transport/multipath.go:330-340 | an answer revives a path whatever its state and forgets misses and recycles |
| PathModel.MissedPathWaits | internal/transport/multipath.go:758-764 | a path that misses took down before three attempts is not recycled |
| PathModel.TxBytesAreExact | internal/transport/multipath.go:424-486 | txBytes is the sum of all successful writes, through recycling |
| PathModel.RecycleCountIsExact | internal/transport/multipath.go:722-729 | recycleCount is the number of recycles since the last recovery |
| Failover.SelectionCorrect | internal/transport/multipath.go:490-531 | no path exactly when all are down; else a usable one, of minimal RTT unless kept by the cooldown |
| Failover.NoPingPong | internal/transport/multipath.go:509-528 | a working path is left only a full cooldown after the previous change |
| Failover.LastSwitchIsChange | internal/transport/multipath.go:520-528 | lastSwitch is the time of an actual change and is not renewed by other selections |
| Failover.CooldownEnds | internal/transport/multipath.go:490-531 | a selection with no change in the cooldown before it leaves a usable path of minimal RTT |
| Failover.VoluntaryChangesAreRare | internal/transport/multipath.go:509-528 | at most T / cooldown + 1 such changes in any stretch of time T |
| SenderRuns.RunIsRounds | internal/transport/multipath.go:490-551 | every run of sender operations is such a sequence of selections, and they choose the sender's active path |
| SenderRuns.SenderNeverPingPongs | internal/transport/multipath.go:322-551 | through RTT updates, misses, mode and interface changes, sends and recycling, a working path is abandoned only a full cooldown after the previous switch |
| SenderRuns.SenderRarelySwitches | internal/transport/multipath.go:322-551 | in any stretch of time T of such a run that happens at most T / cooldown + 1 times |
| SenderRuns.SelectionsAreUsable | internal/transport/multipath.go:322-551 | in failover mode, after every RTT update or miss of a present path, every change of interfaces or mode, there is no active path exactly when all are down, and otherwise a usable one |
| SenderRuns.SenderFollowsBest | internal/transport/multipath.go:322-551 | and it is one of minimal RTT if there was no switch within the cooldown before |
| SenderRuns.OthersKeepActive | internal/transport/multipath.go:322-551 | no other operation touches the active path |
| Multipath.MultiPathSender.Reselect | internal/transport/multipath.go:490-531 | the scan in map order and the cooldown test select as `Select` says |
| Multipath.MultiPathSender.UpdateRTT | internal/transport/multipath.go:322-348 | one path is measured, no other changes, and failover mode selects again |
| Multipath.MultiPathSender.IncrementMiss | internal/transport/multipath.go:352-374 | the fifth miss in a row takes the path down, and failover mode selects again |
| Multipath.MultiPathSender.SetSendMode | internal/transport/multipath.go:413-420 | switching to failover selects at once, switching to redundant selects nothing |
| Multipath.MultiPathSender.SendRedundant | internal/transport/multipath.go:424-455 | every usable path is tried, failures become suspect, and the call succeeds if and only if some write did |
| Multipath.MultiPathSender.SendFailover | internal/transport/multipath.go:457-486 | the active path, or any usable one if there is none, or an error if all are down |
| Multipath.MultiPathSender.CheckAndRecycle | internal/transport/multipath.go:746-789 | collecting and then recycling treats every path as `Checked` |
| Multipath.MultiPathSender.OnInterfaceChange | internal/transport/multipath.go:534-551 | removals, additions and reselection, keeping the path objects of interfaces that are not listed |
| Multipath.InterfaceWatcher.DetectChanges | internal/transport/iface.go:100-137 | for scans without duplicate addresses in the server's family, the path table mirrors the new scan; an interface whose addresses are the same keeps path object and state if neither list changed its length (as it cannot if no address is listed twice), and gets a new path otherwise |
| Interfaces.CompareAddrs | internal/transport/iface.go:283-297 | the two loops compute equal length and inclusion |
| Interfaces.SameAddrsIsSetEquality | internal/transport/iface.go:283-297 | for lists without duplicates that is equality of the address sets |
| Interfaces.NoHiddenChangeIff | internal/transport/iface.go:283-297 | a new list is taken for no old list with other addresses if and only if it names no address twice |
| Interfaces.NoFalseAlarmIff | internal/transport/iface.go:283-297 | an old list equals every clean list of the same addresses if and only if it names no address twice |
| Interfaces.UnchangedIffSameLengths | internal/transport/iface.go:120-128 | an interface whose address sets did not change passes the watcher's test exactly if its lists kept their lengths |
| Interfaces.NeverDisturbedIff | internal/transport/iface.go:120-128 | no clean scan of the same addresses is taken for a change if and only if the scan before listed no address twice in either family |
| Interfaces.DiffAgreesWithRebuild | internal/transport/iface.go:106-136 | if the scan names no address of the server's family twice, the incremental update gives the table of a rebuild; a path whose interface has the same addresses as before is kept exactly if neither list changed its length |
| Interfaces.OtherFamilyCostsHistory | internal/transport/iface.go:120-128 | an IPv4 path is replaced although no address changed, because an IPv6 address is no longer listed twice |
| Interfaces.AgreesIffClean | internal/transport/iface.go:106-136 | it does so for every scan and table that came before if and only if the new scan names no address of the family twice |
| Interfaces.TableAlwaysMirrors | internal/transport/iface.go:100-137 | through any sequence of scans and path events the table has exactly the interfaces with an address of the server's family, each on one of its addresses |

## Left out

- Sockets, TUN devices, goroutines, HTTP handlers, YAML and JSON text, SHA-256 and FNV hashing, and logging (including
  the debug line at internal/server/server.go:487 that indexes an empty payload).
- Interleavings finer than a handler. In particular cleanup deletes routes after releasing the session lock
  (internal/server/server.go:826-839); here the two parts are one step.
- Aliasing of sessions and source addresses: `ClientSession` and `AddrInfo` are values in map fields, not shared
  objects.
- Failing writes of the pool file, and failing socket creation in recyclePath and addPath.
- Window sizes above 2^32 - 64, for which the source's conversion to uint32 or the size of its bit array overflows.
- An IPv6 subnet or server address for leases, and 64-bit overflow of byte counters and durations.
- The clock is read once per operation, where the source reads it again before recording a switch or a recycle.
- Path.RxBytes, and the loop of SendAllHeartbeat over the paths: the suffix is modelled for one path.
- UpdateServerConfig: the team key does not change during a run.
- The getters of the Web API and the configuration defaults.
- Client.Send, the exported variant of the TUN path without rewriting.
- LeaseProtocol.LeasesAreSafe: does not cover administration, because UpdateDeviceIP and DeleteDevice change leases by
  intent, nor client addresses shared between clients, because acks are addressed to source addresses.
- EndToEnd.ClientsWriteOwnTraffic: does not cover datagrams that anyone but the server sends straight to a client, nor
  data packets sent to the server under a client's ID from the host of another client.
- Delivery.DeliveredOnce: does not cover arrivals outside the window, because the window resets on them by design, a
  receiver that restarts and so forgets what it wrote, nor packets that no modelled sender sent; a restarted sender is
  one whose counter jumps ahead. A failing write to TUN counts as written, as the source only logs it.
