/**
 * The lease protocol as a distributed system: clients, the server with its pool file, and a network
 * that may lose, duplicate and reorder every datagram. Clients and server may restart at any time.
 */
module LeaseProtocol {
  import opened Basics
  import opened Packet
  import opened Dedup
  import opened Allocation
  import opened Checksum
  import opened ServerModel
  import opened ServerInvariants
  import opened ServerForwarding
  import opened Client
  import opened Registration

  /** A datagram to or from the server; peer is the client-side address. */
  datatype Datagram = Datagram(peer: UdpAddr, data: Bytes)

  /** toServer and toClients hold everything ever sent: nothing forces a delivery, nothing prevents a second one. */
  datatype System = System(
    server: State, clients: map<ClientID, Memory>, toServer: set<Datagram>, toClients: set<Datagram>)

  datatype Action =
    | SendHeartbeat(id: ClientID, from: UdpAddr, profile: Profile, suffix: Bytes)
    | ServerReceives(d: Datagram, io: Io)
    | ServerReadsTun(payload: Bytes, io: Io)
    | ServerCleansUp
    | ServerRestarts
    | ClientReceives(d: Datagram)
    | ClientRestarts(id: ClientID)

  function Acks(effects: seq<Effect>): set<Datagram> {
    set e | e in effects && e.SendAck? :: Datagram(e.to, e.packet)
  }

  /**
   * owner says which client uses an address. Heartbeats reach the server only from the network;
   * any other packet may arrive at any time.
   */
  ghost predicate Enabled(owner: UdpAddr -> ClientID, sys: System, a: Action) {
    match a
    case SendHeartbeat(id, from, _, _) => id in sys.clients && owner(from) == id
    case ServerReceives(d, _) => d in sys.toServer || HeartbeatIn(d.data).None?
    case ClientReceives(d) => d in sys.toClients && owner(d.peer) in sys.clients
    case ClientRestarts(id) => id in sys.clients
    case _ => true
  }

  function ServerStep(cfg: Config, sys: System, step: Step, now: Time): System {
    var next := Apply(cfg, sys.server, step, now);
    sys.(server := next.state, toClients := sys.toClients + Acks(next.effects))
  }

  function Act(cfg: Config, owner: UdpAddr -> ClientID, sys: System, a: Action, now: Time): System {
    match a
    case SendHeartbeat(id, from, profile, suffix) =>
      if id !in sys.clients then sys
      else
        var m := sys.clients[id];
        sys.(clients := sys.clients[id := NextSeq(m)],
             toServer := sys.toServer + {Datagram(from, HeartbeatPacket(m, id, profile) + suffix)})
    case ServerReceives(d, io) => ServerStep(cfg, sys, Receive(d.data, d.peer, io), now)
    case ServerReadsTun(payload, io) => ServerStep(cfg, sys, ReadTun(payload, io), now)
    case ServerCleansUp => ServerStep(cfg, sys, Tick, now)
    case ServerRestarts => ServerStep(cfg, sys, Restart, now)
    case ClientReceives(d) =>
      var id := owner(d.peer);
      if id !in sys.clients then sys
      else sys.(clients := sys.clients[id := AfterPacket(sys.clients[id], d.data)])
    case ClientRestarts(id) => sys.(clients := sys.clients[id := INITIAL])
  }

  /** Fresh clients, an empty network, and a server started on a good pool file. */
  function Start(saved: map<ClientID, Lease>, ids: set<ClientID>): System {
    System(Boot(saved), map id | id in ids :: INITIAL, {}, {})
  }

  // ---- The invariant ----

  /** ip is 0.0.0.0 or the lease of the client. */
  predicate Leased(pool: map<ClientID, IPv4>, id: ClientID, ip: IPv4) {
    ip == UNSPECIFIED || (id in pool && pool[id] == ip)
  }

  predicate GoodHeartbeat(pool: map<ClientID, IPv4>, owner: UdpAddr -> ClientID, d: Datagram) {
    HeartbeatIn(d.data).Some? ==>
      var (id, hb) := HeartbeatIn(d.data).value;
      id == owner(d.peer) && Leased(pool, id, hb.fixed.virtualIP)
  }

  /** A well-formed ack that reports no conflict and, if positive, carries the client's lease or 0.0.0.0. */
  predicate GoodAck(pool: map<ClientID, IPv4>, id: ClientID, packet: Bytes) {
    && DecodeHeader(packet).Success? && DecodeHeader(packet).value.kind == TYPE_HEARTBEAT_ACK
    && DecodeHeartbeatAck(packet[HEADER_SIZE..]).Success?
    && var ack := DecodeHeartbeatAck(packet[HEADER_SIZE..]).value;
    && ack.status != ACK_CLIENT_ID_CONFLICT
    && (ack.status == ACK_OK ==> Leased(pool, id, ack.assignedIP))
  }

  ghost predicate LeaseInvariant(cfg: Config, owner: UdpAddr -> ClientID, sys: System) {
    && Consistent(cfg, sys.server) && Persisted(sys.server)
    && (forall id :: id in sys.clients ==> Leased(sys.server.pool, id, sys.clients[id].virtualIP))
    && (forall d :: d in sys.toServer ==> GoodHeartbeat(sys.server.pool, owner, d))
    && (forall d :: d in sys.toClients ==> GoodAck(sys.server.pool, owner(d.peer), d.data))
  }

  /** Leases are only ever added. */
  predicate PoolGrows(before: map<ClientID, IPv4>, after: map<ClientID, IPv4>) {
    forall id :: id in before ==> id in after && after[id] == before[id]
  }

  lemma GoodStaysGood(before: map<ClientID, IPv4>, after: map<ClientID, IPv4>, owner: UdpAddr -> ClientID)
    requires PoolGrows(before, after)
    ensures forall id, ip :: Leased(before, id, ip) ==> Leased(after, id, ip)
    ensures forall d :: GoodHeartbeat(before, owner, d) ==> GoodHeartbeat(after, owner, d)
    ensures forall id, p :: GoodAck(before, id, p) ==> GoodAck(after, id, p)
  {
    hide HeartbeatIn, DecodeHeader, DecodeHeartbeatAck;
  }

  // ---- The server's part ----

  lemma AckIsGood(cfg: Config, s: State, pool: map<ClientID, IPv4>, id: ClientID, to: UdpAddr, ip: IPv4,
        prefixLen: Byte, status: Byte)
    requires status != ACK_CLIENT_ID_CONFLICT && (status == ACK_OK ==> Leased(pool, id, ip))
    ensures var effects := Acknowledge(cfg, s, to, ip, prefixLen, status).effects;
            |effects| == 1 && effects[0].SendAck? && effects[0].to == to && GoodAck(pool, id, effects[0].packet)
  {
    hide DecodeHeader, DecodeHeartbeatAck, HeaderBytes, AckBytes;
    var h, a := Header(VERSION1, TYPE_HEARTBEAT_ACK, false, 0, s.seqNo), Ack(ip, prefixLen, status, cfg.mtu);
    HeaderRoundTrip(h, AckBytes(a));
    AckRoundTrip(a, []);
    assert AckPacket(s.seqNo, a)[HEADER_SIZE..] == AckBytes(a) + [];
  }

  lemma AdmitGrowsPool(cfg: Config, s: State, id: ClientID, hb: Heartbeat, from: UdpAddr, now: Time)
    ensures PoolGrows(s.pool, Admit(cfg, s, id, hb, from, now).pool)
  {
    hide Register, HeardFrom, Refresh, SessionOpened;
    if id !in s.sessions {
      RegisterOpens(cfg, s, id, hb, now);
      OpenedGrowsPool(s, Register(cfg, s, id, hb, now), id, Assigned(cfg, s, id, hb).0);
    }
  }

  lemma OpenedGrowsPool(s: State, t: State, id: ClientID, ip: IPv4)
    requires SessionOpened(s, t, id, ip)
    ensures PoolGrows(s.pool, t.pool)
  {}

  lemma LeasedMayClaim(cfg: Config, s: State, id: ClientID, ip: IPv4)
    requires Leased(s.pool, id, ip)
    ensures MayClaim(cfg, s, id, ip)
  {}

  lemma LeasedNeverConflicts(cfg: Config, s: State, id: ClientID, vip: IPv4)
    requires Consistent(cfg, s) && Leased(s.pool, id, vip)
    ensures !Conflicts(s, id, vip)
  {
    if id in s.sessions { assert SessionFollowsLease(s, id); }
  }

  lemma SessionIsLeased(cfg: Config, s: State, id: ClientID)
    requires Consistent(cfg, s) && id in s.sessions
    ensures Leased(s.pool, id, s.sessions[id].virtualIP)
  {
    assert SessionFollowsLease(s, id);
  }

  /** A heartbeat that carries the client's lease is answered with the client's lease. */
  lemma HeartbeatAnswered(cfg: Config, s: State, id: ClientID, payload: Bytes, from: UdpAddr, now: Time)
    requires Consistent(cfg, s) && Persisted(s)
    requires ParseHeartbeat(payload).Success? && Leased(s.pool, id, ParseHeartbeat(payload).value.fixed.virtualIP)
    ensures var next := OnHeartbeat(cfg, s, id, payload, from, now);
            && Consistent(cfg, next.state) && Persisted(next.state) && PoolGrows(s.pool, next.state.pool)
            && forall e :: e in next.effects ==> e.SendAck? && e.to == from && GoodAck(next.state.pool, id, e.packet)
  {
    hide Consistent, Persisted, Admit, Acknowledge, ParseHeartbeat, GoodAck, Leased, Conflicts;
    var hb := ParseHeartbeat(payload).value;
    var vip := hb.fixed.virtualIP;
    HeartbeatConsistent(cfg, s, id, payload, from, now);
    LeasedMayClaim(cfg, s, id, vip);
    LeasedNeverConflicts(cfg, s, id, vip);
    AcknowledgeSameMaps(cfg, s, from, UNSPECIFIED, 0, ACK_TEAM_KEY_MISMATCH);
    AckIsGood(cfg, s, s.pool, id, from, UNSPECIFIED, 0, ACK_TEAM_KEY_MISMATCH);
    var s1 := Admit(cfg, s, id, hb, from, now);
    var sess := s1.sessions[id];
    AdmitConsistent(cfg, s, id, hb, from, now);
    AdmitGrowsPool(cfg, s, id, hb, from, now);
    SessionIsLeased(cfg, s1, id);
    AcknowledgeSameMaps(cfg, s1, from, sess.virtualIP, sess.prefixLen, ACK_OK);
    AckIsGood(cfg, s1, s1.pool, id, from, sess.virtualIP, sess.prefixLen, ACK_OK);
  }

  lemma HeartbeatReceived(cfg: Config, s: State, data: Bytes, from: UdpAddr, now: Time, io: Io)
    requires Consistent(cfg, s) && Persisted(s) && HeartbeatIn(data).Some?
    requires Leased(s.pool, HeartbeatIn(data).value.0, HeartbeatIn(data).value.1.fixed.virtualIP)
    ensures var next, id := OnPacket(cfg, s, data, from, now, io), HeartbeatIn(data).value.0;
            && Consistent(cfg, next.state) && Persisted(next.state) && PoolGrows(s.pool, next.state.pool)
            && forall e :: e in next.effects ==> e.SendAck? && e.to == from && GoodAck(next.state.pool, id, e.packet)
  {
    hide Consistent, Persisted, OnHeartbeat, DecodeHeader, ParseHeartbeat, GoodAck, CountRx;
    var h := DecodeHeader(data).value;
    var s1 := CountRx(s, h.clientID, from, |data|);
    CountRxSameMaps(s, h.clientID, from, |data|);
    SameMapsSameInvariant(cfg, s, s1);
    HeartbeatAnswered(cfg, s1, h.clientID, data[HEADER_SIZE..], from, now);
  }

  /** Everything else the server does without an administrator sends no ack and touches no lease. */
  lemma OtherStepsKeepLeases(cfg: Config, s: State, step: Step, now: Time)
    requires Consistent(cfg, s) && Persisted(s)
    requires step.ReadTun? || step.Tick? || step.Restart? || (step.Receive? && HeartbeatIn(step.data).None?)
    ensures var next := Apply(cfg, s, step, now);
            && Consistent(cfg, next.state) && Persisted(next.state) && next.state.pool == s.pool
            && forall e :: e in next.effects ==> !e.SendAck?
  {
    hide Consistent, Persisted, OnPacket, OnTun, Cleanup, Boot, Legal;
    StepConsistent(cfg, s, step, now);
    match step
    case Receive(data, from, io) =>
      NonHeartbeatLegal(cfg, s, step);
      NonHeartbeatReceived(cfg, s, data, from, now, io);
    case ReadTun(payload, io) =>
      NotHeartbeat(cfg, s, step);
      TunFaithful(cfg, s, payload, io);
      TunKeepsPool(s, payload, io);
    case Tick => NotHeartbeat(cfg, s, step); CleanupKeepsPool(cfg, s, now);
    case Restart => NotHeartbeat(cfg, s, step); RestartConsistent(cfg, s);
  }

  lemma NonHeartbeatLegal(cfg: Config, s: State, step: Step)
    requires step.Receive? && HeartbeatIn(step.data).None?
    ensures Legal(cfg, s, step)
  {}

  lemma CleanupKeepsPool(cfg: Config, s: State, now: Time)
    ensures Cleanup(cfg, s, now).pool == s.pool
  {}

  lemma TunKeepsPool(s: State, payload: Bytes, io: Io)
    ensures OnTun(s, payload, io).state.pool == s.pool
  {
    hide Written, Fanout, Targets, HeaderBytes, Destination;
  }

  lemma NonHeartbeatReceived(cfg: Config, s: State, data: Bytes, from: UdpAddr, now: Time, io: Io)
    requires HeartbeatIn(data).None?
    ensures var next := OnPacket(cfg, s, data, from, now, io);
            next.state.pool == s.pool && forall e :: e in next.effects ==> !e.SendAck?
  {
    hide OnData, DecodeHeader, ParseHeartbeat, CountRx;
    if DecodeHeader(data).Success? {
      var h := DecodeHeader(data).value;
      var s1 := CountRx(s, h.clientID, from, |data|);
      CountRxSameMaps(s, h.clientID, from, |data|);
      DataSameMaps(cfg, s1, h, data[HEADER_SIZE..], data, from, now, io);
      DataSendsNoAck(cfg, s1, h, data[HEADER_SIZE..], data, from, now, io);
    }
  }

  lemma DataSendsNoAck(cfg: Config, s: State, h: Header, payload: Bytes, packet: Bytes, from: UdpAddr, now: Time,
        io: Io)
    ensures forall e :: e in OnData(cfg, s, h, payload, packet, from, now, io).effects ==> !e.SendAck?
  {
    hide Observe, Route, Source, Destination;
    var v := Observe(Lookup(s.dedup, h.clientID), h.seqNo, cfg.window);
    var s1 := s.(dedup := s.dedup[h.clientID := v.window]);
    if !v.duplicate && Acceptable(s1, h.clientID, payload) {
      var s2 := s1.(sessions := s1.sessions[h.clientID := DataFrom(s1.sessions[h.clientID], from, now)]);
      RouteForwards(cfg, s2, payload, packet, io);
    }
  }

  /** What a client learns from an ack. */
  lemma AckTeaches(m: Memory, packet: Bytes)
    requires AckIn(packet).Some?
    ensures var ack := AckIn(packet).value;
            AfterPacket(m, packet) ==
              if ack.status != ACK_OK then m
              else Memory(ack.assignedIP, ack.prefixLen, if ack.mtu > 0 then ack.mtu else m.serverMTU, true, m.seqNo)
  {
    hide DecodeHeader, DecodeHeartbeatAck;
  }

  /**
   * One undisturbed exchange registers a client: its heartbeat is answered, it adopts the address of its
   * session, and if it got one, the server accepts the data packets it frames from then on.
   */
  lemma ExchangeRegisters(cfg: Config, s: State, m: Memory, id: ClientID, p: Profile, suffix: Bytes,
                          from: UdpAddr, now: Time, io: Io, inner: Bytes)
    requires Consistent(cfg, s) && Leased(s.pool, id, m.virtualIP) && id != 0 && p.teamKeyHash == cfg.teamKeyHash
    requires |inner| >= 20 && inner[0] / 16 == 4
    ensures var next := OnPacket(cfg, s, HeartbeatPacket(m, id, p) + suffix, from, now, io);
            && |next.effects| == 1 && next.effects[0].SendAck? && next.effects[0].to == from
            && id in next.state.sessions && from in next.state.sessions[id].addrs
            && var after := AfterPacket(NextSeq(m), next.effects[0].packet);
            && after.registered && after.virtualIP == next.state.sessions[id].virtualIP
            && DataPacket(after, id, inner).Some?
            && (after.virtualIP != UNSPECIFIED ==>
                  Acceptable(next.state, id, DataPacket(after, id, inner).value[HEADER_SIZE..]))
            && after.prefixLen == next.state.sessions[id].prefixLen
            && after.serverMTU == (if cfg.mtu > 0 then cfg.mtu else m.serverMTU)
            && after.seqNo == (m.seqNo + 1) % TWO32
            && (Newcomer(cfg, s, id, m) ==> after.virtualIP != UNSPECIFIED)
  {
    hide Consistent, HeartbeatPacket, DecodeHeader, ParseHeartbeat, OnHeartbeat, CountRx, DecodeHeartbeatAck,
         Rewritten, HeaderBytes, Source, Leased, Pow2, SessionAddress, AckIn, AfterPacket, DataPacket, Acceptable,
         Newcomer;
    var data := HeartbeatPacket(m, id, p) + suffix;
    HeartbeatCarriesAddress(m, id, p, suffix);
    var s1 := CountRx(s, id, from, |data|);
    CountRxSameMaps(s, id, from, |data|);
    SameMapsSameInvariant(cfg, s, s1);
    LeasedNeverConflicts(cfg, s1, id, m.virtualIP);
    HeartbeatAnswer(cfg, s1, id, data[HEADER_SIZE..], from, now);
    var next := OnHeartbeat(cfg, s1, id, data[HEADER_SIZE..], from, now);
    AckTeaches(NextSeq(m), next.effects[0].packet);
    FramesAcceptably(next.state, AfterPacket(NextSeq(m), next.effects[0].packet), id, inner);
    if Newcomer(cfg, s, id, m) { NewcomerGetsAddress(cfg, s, s1, id, m, ParseHeartbeat(data[HEADER_SIZE..]).value); }
  }

  lemma NewcomerGetsAddress(cfg: Config, s: State, t: State, id: ClientID, m: Memory, hb: Heartbeat)
    requires Newcomer(cfg, s, id, m) && SameMaps(s, t) && hb.fixed.virtualIP == m.virtualIP
    ensures SessionAddress(cfg, t, id, hb) != UNSPECIFIED
  {
    hide Pow2, SessionAddress;
    NewClientGetsAddress(cfg, t, id, hb);
  }

  /** What a client frames under the address of its session, the server accepts. */
  lemma FramesAcceptably(s: State, m: Memory, id: ClientID, inner: Bytes)
    requires id in s.sessions && s.sessions[id].virtualIP == m.virtualIP
    requires |inner| >= 20 && inner[0] / 16 == 4
    ensures DataPacket(m, id, inner).Some?
    ensures m.virtualIP != UNSPECIFIED ==> Acceptable(s, id, DataPacket(m, id, inner).value[HEADER_SIZE..])
  {
    hide HeaderBytes, Rewritten, Source;
    DataPacketCorrect(m, id, inner);
    RewriteKeepsVersion(inner, m.virtualIP);
  }

  /** A client without session, lease or address, while the subnet has room for it. */
  predicate Newcomer(cfg: Config, s: State, id: ClientID, m: Memory) {
    && id !in s.pool && id !in s.sessions && m.virtualIP == UNSPECIFIED
    && cfg.subnet.Some? && |s.pool| + 1 < Pow2(32 - cfg.subnet.value.ones) - 2
  }

  /**
   * A client the server refuses, for its key or because its ID is in use under another address, learns nothing from
   * the answer: it keeps its address and is not registered by it.
   */
  lemma RefusedLearnsNothing(cfg: Config, s: State, m: Memory, id: ClientID, p: Profile, suffix: Bytes, from: UdpAddr,
        now: Time, io: Io, later: Memory)
    requires id != 0
    requires p.teamKeyHash != cfg.teamKeyHash ||
             (id in s.sessions && m.virtualIP != UNSPECIFIED && m.virtualIP != s.sessions[id].virtualIP)
    ensures var next := OnPacket(cfg, s, HeartbeatPacket(m, id, p) + suffix, from, now, io);
            && |next.effects| == 1 && next.effects[0].SendAck? && next.effects[0].to == from
            && AfterPacket(later, next.effects[0].packet) == later
            && next.state.pool == s.pool && next.state.routes == s.routes
            && next.state.sessions == CountRx(s, id, from, |HeartbeatPacket(m, id, p) + suffix|).sessions
  {
    hide HeartbeatPacket, DecodeHeader, ParseHeartbeat, OnHeartbeat, CountRx, DecodeHeartbeatAck;
    var data := HeartbeatPacket(m, id, p) + suffix;
    HeartbeatCarriesAddress(m, id, p, suffix);
    CountRxSameMaps(s, id, from, |data|);
    HeartbeatAnswer(cfg, CountRx(s, id, from, |data|), id, data[HEADER_SIZE..], from, now);
  }

  lemma RewriteKeepsVersion(inner: Bytes, vip: IPv4)
    requires |inner| >= 20
    ensures Rewritten(inner, vip)[0] == inner[0]
  {
    hide Checksummed;
    if vip != UNSPECIFIED { RewriteCorrect(inner, vip); assert Rewritten(inner, vip)[..10][0] == inner[..10][0]; }
  }

  // ---- One action ----

  lemma ServerStepKeepsLeases(cfg: Config, owner: UdpAddr -> ClientID, sys: System, step: Step, now: Time)
    requires LeaseInvariant(cfg, owner, sys)
    requires step.ReadTun? || step.Tick? || step.Restart? ||
             (step.Receive? && GoodHeartbeat(sys.server.pool, owner, Datagram(step.from, step.data)))
    ensures LeaseInvariant(cfg, owner, ServerStep(cfg, sys, step, now))
    ensures PoolGrows(sys.server.pool, ServerStep(cfg, sys, step, now).server.pool)
  {
    hide Consistent, Persisted, Apply, GoodAck, HeartbeatIn, Leased;
    var next := Apply(cfg, sys.server, step, now);
    var id := if step.Receive? then owner(step.from) else 0;
    if step.Receive? && HeartbeatIn(step.data).Some? {
      HeartbeatReceived(cfg, sys.server, step.data, step.from, now, step.io);
      ReceiveIsOnPacket(cfg, sys.server, step, now);
    } else {
      OtherStepsKeepLeases(cfg, sys.server, step, now);
    }
    GoodStaysGood(sys.server.pool, next.state.pool, owner);
    forall d | d in Acks(next.effects) ensures GoodAck(next.state.pool, owner(d.peer), d.data) {
      var e :| e in next.effects && e.SendAck? && d == Datagram(e.to, e.packet);
    }
  }

  lemma ReceiveIsOnPacket(cfg: Config, s: State, step: Step, now: Time)
    requires step.Receive?
    ensures Apply(cfg, s, step, now) == OnPacket(cfg, s, step.data, step.from, now, step.io)
  {}

  lemma ClientSendsLease(pool: map<ClientID, IPv4>, owner: UdpAddr -> ClientID, m: Memory, id: ClientID,
        from: UdpAddr, p: Profile, suffix: Bytes)
    requires Leased(pool, id, m.virtualIP) && owner(from) == id
    ensures GoodHeartbeat(pool, owner, Datagram(from, HeartbeatPacket(m, id, p) + suffix))
  {
    hide HeartbeatPacket, DecodeHeader, ParseHeartbeat, Leased;
    HeartbeatCarriesAddress(m, id, p, suffix);
  }

  lemma ClientAdoptsLease(pool: map<ClientID, IPv4>, m: Memory, id: ClientID, data: Bytes)
    requires Leased(pool, id, m.virtualIP) && GoodAck(pool, id, data)
    ensures Leased(pool, id, AfterPacket(m, data).virtualIP)
  {
    hide DecodeHeader, DecodeHeartbeatAck, Leased;
  }

  lemma ActionKeepsLeases(cfg: Config, owner: UdpAddr -> ClientID, sys: System, a: Action, now: Time)
    requires LeaseInvariant(cfg, owner, sys) && Enabled(owner, sys, a)
    ensures LeaseInvariant(cfg, owner, Act(cfg, owner, sys, a, now))
    ensures PoolGrows(sys.server.pool, Act(cfg, owner, sys, a, now).server.pool)
  {
    hide Consistent, Persisted, ServerStep, GoodAck, GoodHeartbeat, Leased, HeartbeatPacket, AfterPacket;
    match a
    case SendHeartbeat(id, from, profile, suffix) =>
      ClientSendsLease(sys.server.pool, owner, sys.clients[id], id, from, profile, suffix);
    case ServerReceives(d, io) =>
      NonHeartbeatIsGood(sys.server.pool, owner, d);
      ServerStepKeepsLeases(cfg, owner, sys, Receive(d.data, d.peer, io), now);
    case ServerReadsTun(payload, io) => ServerStepKeepsLeases(cfg, owner, sys, ReadTun(payload, io), now);
    case ServerCleansUp => ServerStepKeepsLeases(cfg, owner, sys, Tick, now);
    case ServerRestarts => ServerStepKeepsLeases(cfg, owner, sys, Restart, now);
    case ClientReceives(d) =>
      ClientAdoptsLease(sys.server.pool, sys.clients[owner(d.peer)], owner(d.peer), d.data);
    case ClientRestarts(id) => FreshIsLeased(sys.server.pool, id);
  }

  lemma NonHeartbeatIsGood(pool: map<ClientID, IPv4>, owner: UdpAddr -> ClientID, d: Datagram)
    ensures HeartbeatIn(d.data).None? ==> GoodHeartbeat(pool, owner, d)
  {}

  lemma FreshIsLeased(pool: map<ClientID, IPv4>, id: ClientID)
    ensures Leased(pool, id, INITIAL.virtualIP)
  {}

  // ---- Whole runs ----

  datatype TimedAction = TimedAction(action: Action, now: Time)

  function RunOf(cfg: Config, owner: UdpAddr -> ClientID, sys: System, actions: seq<TimedAction>): System {
    if actions == [] then sys
    else
      var n := |actions| - 1;
      Act(cfg, owner, RunOf(cfg, owner, sys, actions[..n]), actions[n].action, actions[n].now)
  }

  /** Every action was possible when it was taken. */
  ghost predicate Possible(cfg: Config, owner: UdpAddr -> ClientID, sys: System, actions: seq<TimedAction>) {
    forall i :: 0 <= i < |actions| ==> Enabled(owner, RunOf(cfg, owner, sys, actions[..i]), actions[i].action)
  }

  lemma RunOfExtends(cfg: Config, owner: UdpAddr -> ClientID, sys: System, actions: seq<TimedAction>, i: nat)
    requires i < |actions|
    ensures RunOf(cfg, owner, sys, actions[..i + 1])
         == Act(cfg, owner, RunOf(cfg, owner, sys, actions[..i]), actions[i].action, actions[i].now)
  {
    hide Act;
    assert actions[..i + 1][..i] == actions[..i];
  }

  lemma {:induction false} RunKeepsLeases(cfg: Config, owner: UdpAddr -> ClientID, sys: System,
        actions: seq<TimedAction>, i: nat, j: nat)
    requires LeaseInvariant(cfg, owner, sys) && Possible(cfg, owner, sys, actions) && i <= j <= |actions|
    ensures LeaseInvariant(cfg, owner, RunOf(cfg, owner, sys, actions[..j]))
    ensures var before, after := RunOf(cfg, owner, sys, actions[..i]), RunOf(cfg, owner, sys, actions[..j]);
            PoolGrows(before.server.pool, after.server.pool)
  {
    hide LeaseInvariant, Act, Enabled;
    if j == 0 {
      assert actions[..0] == [];
    } else {
      RunKeepsLeases(cfg, owner, sys, actions, if i < j then i else j - 1, j - 1);
      RunOfExtends(cfg, owner, sys, actions, j - 1);
      var before := RunOf(cfg, owner, sys, actions[..j - 1]);
      ActionKeepsLeases(cfg, owner, before, actions[j - 1].action, actions[j - 1].now);
    }
  }

  lemma StartKeepsLeases(cfg: Config, owner: UdpAddr -> ClientID, saved: map<ClientID, Lease>, ids: set<ClientID>)
    requires GoodFile(cfg, saved)
    ensures LeaseInvariant(cfg, owner, Start(saved, ids))
  {
    hide Consistent, Persisted;
    BootConsistent(cfg, saved);
  }

  /** Clients that were given addresses were given different ones. */
  ghost predicate DistinctAddresses(sys: System) {
    forall c, d :: c in sys.clients && d in sys.clients && c != d ==>
      sys.clients[c].virtualIP == sys.clients[d].virtualIP ==> sys.clients[c].virtualIP == UNSPECIFIED
  }

  lemma InvariantMeansDistinct(cfg: Config, owner: UdpAddr -> ClientID, sys: System)
    requires LeaseInvariant(cfg, owner, sys)
    ensures DistinctAddresses(sys)
  {
    hide GoodAck, GoodHeartbeat, Persisted;
  }

  /**
   * The lease protocol is safe. In every run without administration, over a network that loses, duplicates
   * and reorders, with clients and server restarting: every positive ack and every heartbeat ever in flight
   * carries 0.0.0.0 or the client's lease, no ack reports a conflict, a lease once given never changes,
   * and no two clients ever use the same address.
   */
  lemma LeasesAreSafe(cfg: Config, owner: UdpAddr -> ClientID, saved: map<ClientID, Lease>, ids: set<ClientID>,
                      actions: seq<TimedAction>, i: nat, j: nat)
    requires GoodFile(cfg, saved) && Possible(cfg, owner, Start(saved, ids), actions) && i <= j <= |actions|
    ensures var before := RunOf(cfg, owner, Start(saved, ids), actions[..i]);
            var after := RunOf(cfg, owner, Start(saved, ids), actions[..j]);
            && PoolGrows(before.server.pool, after.server.pool)
            && (forall d :: d in after.toClients ==> GoodAck(after.server.pool, owner(d.peer), d.data))
            && (forall d :: d in after.toServer ==> GoodHeartbeat(after.server.pool, owner, d))
            && DistinctAddresses(after) && Consistent(cfg, after.server)
  {
    hide Act, Enabled, GoodAck, GoodHeartbeat, DistinctAddresses, Consistent, Start;
    StartKeepsLeases(cfg, owner, saved, ids);
    RunKeepsLeases(cfg, owner, Start(saved, ids), actions, i, j);
    InvariantMeansDistinct(cfg, owner, RunOf(cfg, owner, Start(saved, ids), actions[..j]));
  }
}
