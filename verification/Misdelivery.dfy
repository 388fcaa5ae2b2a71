/** Why ClientsWriteOwnTraffic needs its condition: a client behind another's ReplyPort writes that one's traffic. */
module Misdelivery {
  import opened Basics
  import opened Packet
  import opened Dedup
  import opened Allocation
  import opened Checksum
  import opened ServerModel
  import opened ServerInvariants
  import opened ServerForwarding
  import opened Client
  import opened LeaseProtocol
  import opened Deletion
  import opened EndToEnd

  lemma OneMore(cfg: Config, owner: UdpAddr -> ClientID, start: World, xs: seq<TimedHappening>, x: Happening,
        now: Time, w: WindowSize)
    requires PossibleRun(cfg, owner, start, xs, w)
    requires EndToEnd.Possible(cfg, owner, WorldAfter(cfg, owner, start, xs, w), x)
    ensures var ys := xs + [TimedHappening(x, now)];
            && PossibleRun(cfg, owner, start, ys, w)
            && WorldAfter(cfg, owner, start, ys, w) ==
                 Happen(cfg, owner, WorldAfter(cfg, owner, start, xs, w), x, w, now)
  {
    hide EndToEnd.Possible, Happen;
    var ys := xs + [TimedHappening(x, now)];
    assert forall i :: 0 <= i <= |xs| ==> ys[..i] == xs[..i];
    assert xs[..|xs|] == xs;
  }

  // ---- A client joins ----

  /** A session opened by a heartbeat of its client from the given address. */
  predicate FreshSession(sess: Session, ip: IPv4, from: UdpAddr, p: Profile) {
    && sess.virtualIP == ip && sess.addrs.Keys == {from} && sess.lastDataAddr == None
    && sess.replyPort == p.replyPort && sess.sendMode == p.sendMode
  }

  lemma AdmitJoins(cfg: Config, s: State, id: ClientID, hb: Heartbeat, from: UdpAddr, now: Time, p: Profile)
    requires id !in s.sessions && id in s.pool && hb.fixed.virtualIP in {UNSPECIFIED, s.pool[id]}
    requires hb.fixed.replyPort == p.replyPort && hb.fixed.sendMode == p.sendMode
    ensures var t := Admit(cfg, s, id, hb, from, now);
            && t.pool == s.pool && t.sessions == s.sessions[id := t.sessions[id]]
            && FreshSession(t.sessions[id], s.pool[id], from, p)
  {
    hide Register, Choose;
    RegisterShape(cfg, s, id, hb, now);
  }

  lemma HeartbeatJoins(cfg: Config, s: State, m: Memory, id: ClientID, p: Profile, from: UdpAddr, now: Time, io: Io)
    requires Consistent(cfg, s) && id !in s.sessions && id in s.pool && Leased(s.pool, id, m.virtualIP)
    requires id != 0 && p.teamKeyHash == cfg.teamKeyHash
    ensures var next := OnPacket(cfg, s, HeartbeatPacket(m, id, p) + [], from, now, io);
            && next.state.pool == s.pool && id in next.state.sessions
            && next.state.sessions == s.sessions[id := next.state.sessions[id]]
            && FreshSession(next.state.sessions[id], s.pool[id], from, p)
            && |next.effects| == 1 && next.effects[0].SendAck? && next.effects[0].to == from
            && AfterPacket(NextSeq(m), next.effects[0].packet).registered
  {
    hide HeartbeatPacket, DecodeHeader, ParseHeartbeat, Admit, AckPacket, AfterPacket, Consistent, FreshSession,
         DataPacket, Acceptable, Newcomer;
    var data := HeartbeatPacket(m, id, p) + [];
    HeartbeatCarriesAddress(m, id, p, []);
    ExchangeRegisters(cfg, s, m, id, p, [], from, now, io, Idle());
    AdmitJoins(cfg, CountRx(s, id, from, |data|), id, ParseHeartbeat(data[HEADER_SIZE..]).value, from, now, p);
  }

  function Idle(): (inner: Bytes)
    ensures |inner| == 20 && inner[0] / 16 == 4
  {
    [0x45] + Zeros(19)
  }

  /** Client id is registered at its lease, known at one address only, and its TUN device is open. */
  ghost predicate Joined(before: World, after: World, id: ClientID, from: UdpAddr, p: Profile) {
    var s, t := before.sys.server, after.sys.server;
    && id in s.pool && t.pool == s.pool && id in t.sessions && t.sessions == s.sessions[id := t.sessions[id]]
    && FreshSession(t.sessions[id], s.pool[id], from, p)
    && id in before.endpoints
    && after.endpoints == before.endpoints[id := before.endpoints[id].(hasTun := true)]
  }

  lemma Joins(cfg: Config, owner: UdpAddr -> ClientID, saved: map<ClientID, Lease>, ids: set<ClientID>,
        xs: seq<TimedHappening>, w: WindowSize, id: ClientID, from: UdpAddr, p: Profile)
    returns (ys: seq<TimedHappening>)
    requires GoodFile(cfg, saved) && PossibleRun(cfg, owner, Begin(saved, ids), xs, w)
    requires id in ids && id != 0 && owner(from) == id && p.teamKeyHash == cfg.teamKeyHash
    requires var s := WorldAfter(cfg, owner, Begin(saved, ids), xs, w).sys.server;
             id in s.pool && id !in s.sessions
    ensures PossibleRun(cfg, owner, Begin(saved, ids), ys, w)
    ensures Joined(WorldAfter(cfg, owner, Begin(saved, ids), xs, w), WorldAfter(cfg, owner, Begin(saved, ids), ys, w),
                   id, from, p)
  {
    hide PossibleRun, WorldAfter, LeaseInvariant, OnPacket, HeartbeatPacket, AfterPacket, DecodeHeader, Begin,
         FreshSession, KnownWhereTheyAre, Unspoofed, OrderFits, Consistent;
    var start := Begin(saved, ids);
    var w0 := WorldAfter(cfg, owner, start, xs, w);
    BeginIsGood(cfg, owner, saved, ids);
    RunKeepsWorld(cfg, owner, ids, start, xs, w);
    InvariantIsConsistent(cfg, owner, w0.sys);
    var m, io := w0.sys.clients[id], Io([], {});
    var d := Datagram(from, HeartbeatPacket(m, id, p) + []);
    var next := OnPacket(cfg, w0.sys.server, d.data, from, 0, io);
    HeartbeatJoins(cfg, w0.sys.server, m, id, p, from, 0, io);
    HeartbeatIsNoData(cfg, owner, ids, w0.sys.server, m, id, p, from, io);
    var ack := Datagram(from, next.effects[0].packet);
    OneMore(cfg, owner, start, xs, Protocol(SendHeartbeat(id, from, p, [])), 0, w);
    var xs1 := xs + [TimedHappening(Protocol(SendHeartbeat(id, from, p, [])), 0)];
    OneMore(cfg, owner, start, xs1, Protocol(ServerReceives(d, io)), 0, w);
    var xs2 := xs1 + [TimedHappening(Protocol(ServerReceives(d, io)), 0)];
    var w2 := WorldAfter(cfg, owner, start, xs2, w);
    assert next.effects[0] in next.effects && ack in w2.sys.toClients;
    OneMore(cfg, owner, start, xs2, Protocol(ClientReceives(ack)), 0, w);
    var xs3 := xs2 + [TimedHappening(Protocol(ClientReceives(ack)), 0)];
    OneMore(cfg, owner, start, xs3, OpenTun(id), 0, w);
    ys := xs3 + [TimedHappening(OpenTun(id), 0)];
  }

  lemma HeartbeatIsNoData(cfg: Config, owner: UdpAddr -> ClientID, ids: set<ClientID>, s: State, m: Memory,
        id: ClientID, p: Profile, from: UdpAddr, io: Io)
    ensures var d := Datagram(from, HeartbeatPacket(m, id, p) + []);
            Unspoofed(owner, ids, d) && FairOrder(cfg, s, ServerReceives(d, io))
  {
    hide HeartbeatPacket, DecodeHeader, OrderFits, Belongs;
    HeartbeatCarriesAddress(m, id, p, []);
  }

  // ---- The server's packet for one client reaches another ----

  /** Two leases. */
  function TwoLeases(b: ClientID, c: ClientID): map<ClientID, Lease> {
    map[b := Lease(0x0A63_0002, []), c := Lease(0x0A63_0003, [])]
  }

  /** An IPv4 packet to the second of them. */
  const INNER: Bytes := [0x45] + Zeros(15) + [0x0A, 0x63, 0, 3]

  lemma InnerIsForSecond()
    ensures InnerIPv4(INNER) && Destination(INNER) == 0x0A63_0003
  {
    assert INNER[16..20] == [0x0A, 0x63, 0, 3];
  }

  /** Besides the address itself its ReplyPort gets a copy. */
  lemma TunReachesReplyPort(s: State, inner: Bytes, c: ClientID, a: UdpAddr, p: UInt16)
    requires InnerIPv4(inner) && Destination(inner) in s.routes && s.routes[Destination(inner)] == c
    requires c in s.sessions && s.sessions[c].addrs.Keys == {a} && s.sessions[c].sendMode != SEND_MODE_FAILOVER
    requires s.sessions[c].replyPort == p > 0 && p != a.port
    ensures var variant := UdpAddr(a.host, p);
            var packet := HeaderBytes(Header(VERSION1, TYPE_DATA, false, 0, s.seqNo)) + inner;
            Forward(variant, c, packet) in OnTun(s, inner, Io([a], {a, variant})).effects
  {
    hide Destination, HeaderBytes, Written;
    var variant, packet := UdpAddr(a.host, p), HeaderBytes(Header(VERSION1, TYPE_DATA, false, 0, s.seqNo)) + inner;
    var io, sess := Io([a], {a, variant}), s.sessions[c];
    assert a in sess.addrs;
    FanoutOfOne(sess, io, a, c, packet);
    assert Copies(sess, io, a) == [a, variant];
    assert Deliveries([a, variant], c, packet)[1] == Forward(variant, c, packet);
  }

  lemma FanoutOfOne(sess: Session, io: Io, a: UdpAddr, c: ClientID, packet: Bytes)
    ensures Fanout(sess, io, [a], c, packet) == Deliveries(Copies(sess, io, a), c, packet)
  {
    hide Copies, Deliveries;
    assert [a][..0] == [];
    assert Fanout(sess, io, [], c, packet) == [];
  }

  /** A client that never heard the server writes its first packet. */
  lemma FirstIsWritten(ep: Endpoint, seqNo: UInt32, inner: Bytes, w: WindowSize)
    requires ep.hasTun && ep.windows == map[] && ep.output == []
    ensures var packet := HeaderBytes(Header(VERSION1, TYPE_DATA, false, 0, seqNo)) + inner;
            Taken(ep, packet, w).output == [Output(0, inner)]
  {
    hide HeaderBytes, DecodeHeader;
    HeaderRoundTrip(Header(VERSION1, TYPE_DATA, false, 0, seqNo), inner);
  }

  /** Both clients are registered with their leases, and the first has written nothing yet. */
  lemma BothJoin(owner: UdpAddr -> ClientID, ids: set<ClientID>, w: WindowSize, b: ClientID, at: UdpAddr,
        c: ClientID, a: UdpAddr, p: UInt16)
    returns (xs: seq<TimedHappening>)
    requires 0 !in ids && b in ids && c in ids && b != c && owner(at) == b && owner(a) == c
    ensures PossibleRun(EXAMPLE_CONFIG, owner, Begin(TwoLeases(b, c), ids), xs, w)
    ensures var world := WorldAfter(EXAMPLE_CONFIG, owner, Begin(TwoLeases(b, c), ids), xs, w);
            && world.sys.server.pool == map[b := 0x0A63_0002, c := 0x0A63_0003]
            && c in world.sys.server.sessions
            && FreshSession(world.sys.server.sessions[c], 0x0A63_0003, a, Profile(0, p, EXAMPLE_KEY, []))
            && b in world.endpoints && world.endpoints[b] == Endpoint(map[], true, [])
  {
    hide PossibleRun, Joined, FreshSession;
    var cfg, saved := EXAMPLE_CONFIG, TwoLeases(b, c);
    var start := Begin(saved, ids);
    TwoLeasesPool(b, c);
    NothingHappened(cfg, owner, start, w);
    var xs1 := Joins(cfg, owner, saved, ids, [], w, b, at, Profile(0, 0, EXAMPLE_KEY, []));
    var w1 := WorldAfter(cfg, owner, start, xs1, w);
    JoinedFacts(start, w1, b, at, Profile(0, 0, EXAMPLE_KEY, []));
    xs := Joins(cfg, owner, saved, ids, xs1, w, c, a, Profile(0, p, EXAMPLE_KEY, []));
    JoinedFacts(w1, WorldAfter(cfg, owner, start, xs, w), c, a, Profile(0, p, EXAMPLE_KEY, []));
  }

  lemma JoinedFacts(before: World, after: World, id: ClientID, from: UdpAddr, p: Profile)
    requires Joined(before, after, id, from, p)
    ensures after.sys.server.pool == before.sys.server.pool && id in after.sys.server.sessions && id in before.endpoints
    ensures id in before.sys.server.pool
    ensures FreshSession(after.sys.server.sessions[id], before.sys.server.pool[id], from, p)
    ensures forall c :: c in after.sys.server.sessions ==> c == id || c in before.sys.server.sessions
    ensures after.endpoints == before.endpoints[id := before.endpoints[id].(hasTun := true)]
  {
    hide FreshSession;
  }

  lemma NothingHappened(cfg: Config, owner: UdpAddr -> ClientID, start: World, w: WindowSize)
    ensures PossibleRun(cfg, owner, start, [], w) && WorldAfter(cfg, owner, start, [], w) == start
  {}

  lemma TwoLeasesPool(b: ClientID, c: ClientID)
    requires b != c
    ensures GoodFile(EXAMPLE_CONFIG, TwoLeases(b, c))
    ensures Boot(TwoLeases(b, c)).pool == map[b := 0x0A63_0002, c := 0x0A63_0003]
  {}

  /** If one client's ReplyPort is another client's, there is a run in which that one writes what is not its own. */
  lemma SharedPortMisdelivers(owner: UdpAddr -> ClientID, ids: set<ClientID>, w: WindowSize, a: UdpAddr, p: UInt16)
    returns (saved: map<ClientID, Lease>, xs: seq<TimedHappening>)
    requires 0 !in ids && p > 0 && owner(a) in ids && owner(UdpAddr(a.host, p)) in ids
    requires owner(UdpAddr(a.host, p)) != owner(a)
    ensures GoodFile(EXAMPLE_CONFIG, saved) && PossibleRun(EXAMPLE_CONFIG, owner, Begin(saved, ids), xs, w)
    ensures !OnlyOwnTraffic(WorldAfter(EXAMPLE_CONFIG, owner, Begin(saved, ids), xs, w))
  {
    hide PossibleRun, WorldAfter, Begin, WorldInvariant, OnTun, Taken, Destination, Consistent, HeaderBytes;
    var cfg, at := EXAMPLE_CONFIG, UdpAddr(a.host, p);
    var b, c := owner(at), owner(a);
    assert p != a.port;
    saved := TwoLeases(b, c);
    TwoLeasesPool(b, c);
    InnerIsForSecond();
    var start := Begin(saved, ids);
    var xs0 := BothJoin(owner, ids, w, b, at, c, a, p);
    var w0 := WorldAfter(cfg, owner, start, xs0, w);
    ServerRoutes(cfg, owner, saved, ids, xs0, w, c);
    var s, io := w0.sys.server, Io([a], {a, at});
    var packet := HeaderBytes(Header(VERSION1, TYPE_DATA, false, 0, s.seqNo)) + INNER;
    TunReachesReplyPort(s, INNER, c, a, p);
    var read := Protocol(ServerReadsTun(INNER, io));
    OneMore(cfg, owner, start, xs0, read, 0, w);
    var xs1 := xs0 + [TimedHappening(read, 0)];
    var parcel := Parcel(c, at, packet);
    assert parcel in Parcels(OnTun(s, INNER, io).effects);
    OneMore(cfg, owner, start, xs1, Deliver(parcel), 0, w);
    xs := xs1 + [TimedHappening(Deliver(parcel), 0)];
    FirstIsWritten(w0.endpoints[b], s.seqNo, INNER, w);
    TunKeepsPool(s, INNER, io);
    var world := WorldAfter(cfg, owner, start, xs, w);
    assert world.endpoints[b].output == [Output(0, INNER)];
    assert Output(0, INNER) in world.endpoints[b].output;
    assert world.sys.server.pool[b] != Destination(INNER);
    assert !OwnTraffic(world, b, Output(0, INNER));
  }

  /** In every state of every run the route to a session's address leads to it. */
  lemma ServerRoutes(cfg: Config, owner: UdpAddr -> ClientID, saved: map<ClientID, Lease>, ids: set<ClientID>,
        xs: seq<TimedHappening>, w: WindowSize, c: ClientID)
    requires GoodFile(cfg, saved) && PossibleRun(cfg, owner, Begin(saved, ids), xs, w)
    requires var s := WorldAfter(cfg, owner, Begin(saved, ids), xs, w).sys.server;
             c in s.sessions && s.sessions[c].virtualIP != UNSPECIFIED
    ensures var s := WorldAfter(cfg, owner, Begin(saved, ids), xs, w).sys.server;
            s.sessions[c].virtualIP in s.routes && s.routes[s.sessions[c].virtualIP] == c
  {
    hide PossibleRun, WorldAfter, Begin, KnownWhereTheyAre, GoodParcel;
    BeginIsGood(cfg, owner, saved, ids);
    RunKeepsWorld(cfg, owner, ids, Begin(saved, ids), xs, w);
    var s := WorldAfter(cfg, owner, Begin(saved, ids), xs, w).sys.server;
    InvariantIsConsistent(cfg, owner, WorldAfter(cfg, owner, Begin(saved, ids), xs, w).sys);
    assert SessionFollowsLease(s, c);
  }

  /** Whatever the configuration, the pool file and the run, clients write their own traffic only. */
  ghost predicate AlwaysOwnTraffic(owner: UdpAddr -> ClientID, ids: set<ClientID>, w: WindowSize) {
    forall cfg, saved, xs :: GoodFile(cfg, saved) && PossibleRun(cfg, owner, Begin(saved, ids), xs, w) ==>
      OnlyOwnTraffic(WorldAfter(cfg, owner, Begin(saved, ids), xs, w))
  }

  /** Clients write their own traffic only, in every run, if and only if no client sits behind another's ReplyPort. */
  lemma OwnTrafficIff(owner: UdpAddr -> ClientID, ids: set<ClientID>, w: WindowSize)
    requires 0 !in ids
    ensures AlwaysOwnTraffic(owner, ids, w) <==> PortsDisjoint(owner, ids)
  {
    hide PossibleRun, WorldAfter, Begin, OnlyOwnTraffic, GoodFile;
    if PortsDisjoint(owner, ids) {
      forall cfg, saved, xs | GoodFile(cfg, saved) && PossibleRun(cfg, owner, Begin(saved, ids), xs, w)
        ensures OnlyOwnTraffic(WorldAfter(cfg, owner, Begin(saved, ids), xs, w))
      {
        ClientsWriteOwnTraffic(cfg, owner, saved, ids, xs, w);
      }
    } else {
      var a: UdpAddr, p: UInt16 :| p > 0 && owner(a) in ids &&
        owner(UdpAddr(a.host, p)) != owner(a) && owner(UdpAddr(a.host, p)) in ids;
      var saved, xs := SharedPortMisdelivers(owner, ids, w, a, p);
    }
  }

  /**
   * A foreign address can draw a client's traffic to itself: in failover mode one packet under the client's ID, from
   * and to its address, comes back to whoever sent it. That is why data packets must not be spoofed.
   */
  lemma SpoofedDataComesBack(cfg: Config, s: State, data: Bytes, from: UdpAddr, now: Time, io: Io)
    requires Consistent(cfg, s) && DecodeHeader(data).Success?
    requires var h, payload := DecodeHeader(data).value, data[HEADER_SIZE..];
      && h.kind == TYPE_DATA && Acceptable(s, h.clientID, payload)
      && !Observe(Lookup(s.dedup, h.clientID), h.seqNo, cfg.window).duplicate
      && Destination(payload) == Source(payload) != UNSPECIFIED && Destination(payload) != cfg.serverIP
      && s.sessions[h.clientID].sendMode == SEND_MODE_FAILOVER
      && s.sessions[h.clientID].addrs != map[] && Enumerates(io.order, s.sessions[h.clientID].addrs)
    requires from in io.ok
    ensures Forward(from, DecodeHeader(data).value.clientID, data) in OnPacket(cfg, s, data, from, now, io).effects
  {
    hide Observe, Source, Destination, DecodeHeader, OnPacket;
    var d := DecodeHeader(data).value.clientID;
    HolderIsReached(cfg, s, data, from, now, io, d);
    var a :| a in s.sessions[d].addrs;
    assert a in io.order;
  }
}
