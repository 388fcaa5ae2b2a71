/**
 * The lease protocol and the data path together, address by address: what the clients write to their TUN devices
 * carries the addresses the server leased, exactly if no client sits behind another one's ReplyPort.
 */
module EndToEnd {
  import opened Basics
  import opened Packet
  import opened Dedup
  import opened Checksum
  import opened ServerModel
  import opened ServerInvariants
  import opened ServerForwarding
  import opened Client
  import opened LeaseProtocol
  import opened Addresses

  /** A packet the server wrote to an address, meant for a client. */
  datatype Parcel = Parcel(client: ClientID, to: UdpAddr, packet: Bytes)

  /** A packet written to TUN, with the ID its header named as the sender. */
  datatype Output = Output(sender: ClientID, payload: Bytes)

  /** A client's data path; output is everything it ever wrote. */
  datatype Endpoint = Endpoint(windows: map<ClientID, Window>, hasTun: bool, output: seq<Output>)

  /** relayed holds every parcel ever sent, to be lost, duplicated or reordered. */
  datatype World = World(sys: System, relayed: set<Parcel>, endpoints: map<ClientID, Endpoint>)

  datatype Happening =
    | Protocol(a: Action)
    | OpenTun(id: ClientID)
    | Deliver(parcel: Parcel)

  /** No client sits on this host. */
  ghost predicate Clientless(owner: UdpAddr -> ClientID, ids: set<ClientID>, host: nat) {
    forall p: UInt16 :: owner(UdpAddr(host, p)) !in ids
  }

  /** Not an address, nor the host, of another client. */
  ghost predicate Belongs(owner: UdpAddr -> ClientID, ids: set<ClientID>, id: ClientID, a: UdpAddr) {
    owner(a) == id || Clientless(owner, ids, a.host)
  }

  /** Data packets under a client's ID come from that client, or at least from no host of another one. */
  ghost predicate Unspoofed(owner: UdpAddr -> ClientID, ids: set<ClientID>, d: Datagram) {
    DecodeHeader(d.data).Success? && DecodeHeader(d.data).value.kind == TYPE_DATA ==>
      Belongs(owner, ids, DecodeHeader(d.data).value.clientID, d.peer)
  }

  /** The server writes to the addresses of a session in some order, each of them once. */
  ghost predicate FairOrder(cfg: Config, s: State, a: Action) {
    match a
    case ServerReceives(d, io) =>
      DecodeHeader(d.data).Success? && DecodeHeader(d.data).value.kind == TYPE_DATA ==>
        OrderFits(cfg, s, DecodeHeader(d.data).value, d.data[HEADER_SIZE..], io)
    case ServerReadsTun(payload, io) => TunOrderFits(s, payload, io)
    case _ => true
  }

  /** A TUN device is opened once the client is registered; a parcel reaches whoever owns the address. */
  ghost predicate Possible(cfg: Config, owner: UdpAddr -> ClientID, world: World, x: Happening) {
    match x
    case Protocol(a) =>
      && Enabled(owner, world.sys, a) && FairOrder(cfg, world.sys.server, a)
      && (a.ServerReceives? ==> Unspoofed(owner, world.endpoints.Keys, a.d))
    case OpenTun(id) => id in world.endpoints && id in world.sys.clients && world.sys.clients[id].registered
    case Deliver(parcel) => parcel in world.relayed && owner(parcel.to) in world.endpoints
  }

  function Parcels(effects: seq<Effect>): set<Parcel> {
    set e | e in effects && e.Forward? :: Parcel(e.client, e.to, e.packet)
  }

  /** What the server sends on when the action is taken. */
  function SentOn(cfg: Config, s: State, a: Action, now: Time): set<Parcel> {
    match a
    case ServerReceives(d, io) => Parcels(OnPacket(cfg, s, d.data, d.peer, now, io).effects)
    case ServerReadsTun(payload, io) => Parcels(OnTun(s, payload, io).effects)
    case _ => {}
  }

  /** A client's receive loop on one packet. */
  function Taken(ep: Endpoint, packet: Bytes, w: WindowSize): Endpoint {
    match DecodeHeader(packet)
    case Failure(_) => ep
    case Success(h) =>
      if h.kind != TYPE_DATA then ep else
      var (windows, out) := Heard(ep.windows, ep.hasTun, h, packet[HEADER_SIZE..], w);
      Endpoint(windows, ep.hasTun, if out.None? then ep.output else ep.output + [Output(h.clientID, out.value)])
  }

  function Happen(cfg: Config, owner: UdpAddr -> ClientID, world: World, x: Happening, w: WindowSize, now: Time)
    : World
  {
    var World(sys, relayed, endpoints) := world;
    match x
    case Protocol(a) =>
      World(Act(cfg, owner, sys, a, now), relayed + SentOn(cfg, sys.server, a, now),
            if a.ClientRestarts? && a.id in endpoints then
              endpoints[a.id := Endpoint(map[], false, endpoints[a.id].output)]
            else endpoints)
    case OpenTun(id) =>
      if id !in endpoints then world else world.(endpoints := endpoints[id := endpoints[id].(hasTun := true)])
    case Deliver(parcel) =>
      var id := owner(parcel.to);
      if id !in endpoints then world
      else world.(endpoints := endpoints[id := Taken(endpoints[id], parcel.packet, w)])
  }

  function Begin(saved: map<ClientID, Lease>, ids: set<ClientID>): World {
    World(Start(saved, ids), {}, map id | id in ids :: Endpoint(map[], false, []))
  }

  // ---- Invariants that hold whoever owns which address ----

  /** From the sender's lease, if it is a client, to the recipient's. */
  predicate Addressed(pool: map<ClientID, IPv4>, client: ClientID, sender: ClientID, payload: Bytes) {
    && InnerIPv4(payload)
    && client in pool && pool[client] == Destination(payload)
    && (sender != 0 ==> Leased(pool, sender, Source(payload)))
  }

  predicate GoodParcel(pool: map<ClientID, IPv4>, p: Parcel) {
    && DecodeHeader(p.packet).Success?
    && Addressed(pool, p.client, DecodeHeader(p.packet).value.clientID, p.packet[HEADER_SIZE..])
  }

  /** Every session is a client's, and known only where the client may be. */
  ghost predicate KnownWhereTheyAre(owner: UdpAddr -> ClientID, ids: set<ClientID>, s: State) {
    s.sessions.Keys <= ids && forall c, a :: Knows(s, c, a) ==> Belongs(owner, ids, c, a)
  }

  ghost predicate WorldInvariant(cfg: Config, owner: UdpAddr -> ClientID, ids: set<ClientID>, world: World) {
    && LeaseInvariant(cfg, owner, world.sys)
    && world.sys.clients.Keys == ids == world.endpoints.Keys
    && (forall d :: d in world.sys.toServer ==> owner(d.peer) in ids)
    && KnownWhereTheyAre(owner, ids, world.sys.server)
    && forall p :: p in world.relayed ==> GoodParcel(world.sys.server.pool, p)
  }

  lemma GrowthKeepsGood(before: map<ClientID, IPv4>, after: map<ClientID, IPv4>)
    requires PoolGrows(before, after)
    ensures forall c, s, p :: Addressed(before, c, s, p) ==> Addressed(after, c, s, p)
    ensures forall p :: GoodParcel(before, p) ==> GoodParcel(after, p)
  {
    hide DecodeHeader, Source, Destination;
  }

  /** Whatever packet arrives, from wherever: what the server sends on is addressed as leased. */
  lemma ForwardsGoodParcels(cfg: Config, s: State, data: Bytes, from: UdpAddr, now: Time, io: Io)
    requires Consistent(cfg, s)
    ensures forall p :: p in Parcels(OnPacket(cfg, s, data, from, now, io).effects) ==> GoodParcel(s.pool, p)
  {
    hide OnPacket, DecodeHeader, Source, Destination;
    ForwardingFaithful(cfg, s, data, from, now, io);
    forall e | e in OnPacket(cfg, s, data, from, now, io).effects && e.Forward?
      ensures GoodParcel(s.pool, Parcel(e.client, e.to, e.packet))
    {
      assert FaithfulForward(cfg, s, data, e);
      SessionIsLeased(cfg, s, DecodeHeader(data).value.clientID);
    }
  }

  lemma TunGoodParcels(cfg: Config, s: State, payload: Bytes, io: Io)
    requires Consistent(cfg, s)
    ensures forall p :: p in Parcels(OnTun(s, payload, io).effects) ==> GoodParcel(s.pool, p)
  {
    hide OnTun, DecodeHeader, Source, Destination;
    TunFaithful(cfg, s, payload, io);
  }

  lemma ActionSendsGoodParcels(cfg: Config, s: State, a: Action, now: Time)
    requires Consistent(cfg, s)
    ensures forall p :: p in SentOn(cfg, s, a, now) ==> GoodParcel(s.pool, p)
  {
    hide Consistent, OnPacket, OnTun, GoodParcel, Parcels;
    match a
    case ServerReceives(d, io) => ForwardsGoodParcels(cfg, s, d.data, d.peer, now, io);
    case ServerReadsTun(payload, io) => TunGoodParcels(cfg, s, payload, io);
    case _ =>
  }

  lemma InvariantIsConsistent(cfg: Config, owner: UdpAddr -> ClientID, sys: System)
    requires LeaseInvariant(cfg, owner, sys)
    ensures Consistent(cfg, sys.server)
    ensures forall c :: c in sys.clients ==> Leased(sys.server.pool, c, sys.clients[c].virtualIP)
    ensures forall d :: d in sys.toServer ==> GoodHeartbeat(sys.server.pool, owner, d)
  {
    hide Consistent, Persisted, GoodHeartbeat, GoodAck, Leased;
  }

  lemma IntroductionBelongs(owner: UdpAddr -> ClientID, ids: set<ClientID>, pool: map<ClientID, IPv4>, d: Datagram,
        id: ClientID)
    requires Introduces(d.data, id) && Unspoofed(owner, ids, d) && GoodHeartbeat(pool, owner, d)
    ensures Belongs(owner, ids, id, d.peer)
    ensures HeartbeatIn(d.data).Some? ==> id == owner(d.peer)
  {
    hide DecodeHeader, ParseHeartbeat, Clientless;
  }

  lemma ReceivingKeepsKnown(cfg: Config, owner: UdpAddr -> ClientID, ids: set<ClientID>, s: State, d: Datagram,
        now: Time, io: Io)
    requires KnownWhereTheyAre(owner, ids, s) && Unspoofed(owner, ids, d) && GoodHeartbeat(s.pool, owner, d)
    requires HeartbeatIn(d.data).Some? ==> owner(d.peer) in ids
    ensures KnownWhereTheyAre(owner, ids, OnPacket(cfg, s, d.data, d.peer, now, io).state)
  {
    hide OnPacket, Knows, Belongs, Introduces, Unspoofed, GoodHeartbeat, HeartbeatIn;
    PacketLearns(cfg, s, d.data, d.peer, now, io);
    forall c | Introduces(d.data, c)
      ensures Belongs(owner, ids, c, d.peer) && (HeartbeatIn(d.data).Some? ==> c == owner(d.peer))
    {
      IntroductionBelongs(owner, ids, s.pool, d, c);
    }
  }

  lemma LearningNothingKeepsKnown(owner: UdpAddr -> ClientID, ids: set<ClientID>, s: State, t: State)
    requires KnownWhereTheyAre(owner, ids, s) && LearnsNothing(s, t)
    ensures KnownWhereTheyAre(owner, ids, t)
  {
    hide Knows, Belongs;
  }

  lemma NoHeartbeatIsGood(pool: map<ClientID, IPv4>, owner: UdpAddr -> ClientID, d: Datagram)
    requires HeartbeatIn(d.data).None?
    ensures GoodHeartbeat(pool, owner, d)
  {}

  lemma ActionKeepsKnown(cfg: Config, owner: UdpAddr -> ClientID, ids: set<ClientID>, sys: System, a: Action, now: Time)
    requires KnownWhereTheyAre(owner, ids, sys.server) && Enabled(owner, sys, a)
    requires forall d :: d in sys.toServer ==> owner(d.peer) in ids && GoodHeartbeat(sys.server.pool, owner, d)
    requires a.ServerReceives? ==> Unspoofed(owner, ids, a.d)
    ensures KnownWhereTheyAre(owner, ids, Act(cfg, owner, sys, a, now).server)
  {
    hide OnPacket, OnTun, Cleanup, Boot, KnownWhereTheyAre, LearnsNothing, Unspoofed, GoodHeartbeat, HeartbeatIn;
    match a
    case ServerReceives(d, io) =>
      if HeartbeatIn(d.data).None? { NoHeartbeatIsGood(sys.server.pool, owner, d); }
      ReceivingKeepsKnown(cfg, owner, ids, sys.server, d, now, io);
    case ServerReadsTun(payload, io) =>
      OtherStepsLearnNothing(cfg, sys.server, payload, io, now);
      LearningNothingKeepsKnown(owner, ids, sys.server, OnTun(sys.server, payload, io).state);
    case ServerCleansUp =>
      OtherStepsLearnNothing(cfg, sys.server, [], Io([], {}), now);
      LearningNothingKeepsKnown(owner, ids, sys.server, Cleanup(cfg, sys.server, now));
    case ServerRestarts =>
      OtherStepsLearnNothing(cfg, sys.server, [], Io([], {}), now);
      LearningNothingKeepsKnown(owner, ids, sys.server, Boot(sys.server.saved));
    case _ =>
  }

  /** Clients come and go by no action, and only clients send heartbeats. */
  lemma ActionKeepsClients(cfg: Config, owner: UdpAddr -> ClientID, sys: System, a: Action, now: Time)
    requires Enabled(owner, sys, a)
    ensures var next := Act(cfg, owner, sys, a, now);
            && next.clients.Keys == sys.clients.Keys
            && forall d :: d in next.toServer ==> d in sys.toServer || owner(d.peer) in sys.clients
  {
    hide Apply, HeartbeatPacket, AfterPacket;
  }

  lemma HappenKeeps(cfg: Config, owner: UdpAddr -> ClientID, ids: set<ClientID>, world: World, x: Happening,
        w: WindowSize, now: Time)
    requires WorldInvariant(cfg, owner, ids, world) && Possible(cfg, owner, world, x)
    ensures WorldInvariant(cfg, owner, ids, Happen(cfg, owner, world, x, w, now))
    ensures PoolGrows(world.sys.server.pool, Happen(cfg, owner, world, x, w, now).sys.server.pool)
  {
    hide LeaseInvariant, Enabled, Act, SentOn, GoodParcel, PoolGrows, Taken, KnownWhereTheyAre, GoodHeartbeat,
         FairOrder, Unspoofed;
    var pool := world.sys.server.pool;
    match x
    case Protocol(a) =>
      InvariantIsConsistent(cfg, owner, world.sys);
      ActionKeepsLeases(cfg, owner, world.sys, a, now);
      ActionKeepsClients(cfg, owner, world.sys, a, now);
      ActionKeepsKnown(cfg, owner, ids, world.sys, a, now);
      ActionSendsGoodParcels(cfg, world.sys.server, a, now);
      GrowthKeepsGood(pool, Act(cfg, owner, world.sys, a, now).server.pool);
    case _ => PoolStays(pool);
  }

  lemma PoolStays(pool: map<ClientID, IPv4>)
    ensures PoolGrows(pool, pool)
  {}

  // ---- Who gets the parcels ----

  /** A port that one client may announce as its ReplyPort is no other client's. */
  ghost predicate PortsDisjoint(owner: UdpAddr -> ClientID, ids: set<ClientID>) {
    forall a: UdpAddr, p: UInt16 :: p > 0 && owner(a) in ids ==>
      owner(UdpAddr(a.host, p)) == owner(a) || owner(UdpAddr(a.host, p)) !in ids
  }

  /** No other client gets the parcel. */
  predicate ReachesNoOther(owner: UdpAddr -> ClientID, ids: set<ClientID>, p: Parcel) {
    owner(p.to) == p.client || owner(p.to) !in ids
  }

  lemma KnownReachesNoOther(owner: UdpAddr -> ClientID, ids: set<ClientID>, p: Parcel, t: UdpAddr, port: UInt16)
    requires PortsDisjoint(owner, ids) && p.client in ids && Belongs(owner, ids, p.client, t)
    requires p.to == t || (port > 0 && p.to == UdpAddr(t.host, port))
    ensures ReachesNoOther(owner, ids, p)
  {
    assert t == UdpAddr(t.host, t.port);
  }

  lemma ParcelsReachNoOther(cfg: Config, owner: UdpAddr -> ClientID, ids: set<ClientID>, s: State, d: Datagram,
        now: Time, io: Io)
    requires PortsDisjoint(owner, ids) && FairOrder(cfg, s, ServerReceives(d, io))
    requires KnownWhereTheyAre(owner, ids, OnPacket(cfg, s, d.data, d.peer, now, io).state)
    ensures forall p :: p in Parcels(OnPacket(cfg, s, d.data, d.peer, now, io).effects) ==>
              ReachesNoOther(owner, ids, p)
  {
    hide OnPacket, OrderFits, DecodeHeader, PortsDisjoint, Belongs, KnownAs, ReachesNoOther;
    var next := OnPacket(cfg, s, d.data, d.peer, now, io);
    forall e | e in next.effects && e.Forward? ensures ReachesNoOther(owner, ids, Parcel(e.client, e.to, e.packet)) {
      OnlyDataIsForwarded(cfg, s, d.data, d.peer, now, io);
      CopiesGoToRecipient(cfg, s, d.data, d.peer, now, io);
      var sess := next.state.sessions[e.client];
      var t :| KnownAs(sess, t) && (e.to == t || (sess.replyPort > 0 && e.to == UdpAddr(t.host, sess.replyPort)));
      assert Knows(next.state, e.client, t);
      KnownReachesNoOther(owner, ids, Parcel(e.client, e.to, e.packet), t, sess.replyPort);
    }
  }

  lemma OnlyDataIsForwarded(cfg: Config, s: State, data: Bytes, from: UdpAddr, now: Time, io: Io)
    ensures (exists e :: e in OnPacket(cfg, s, data, from, now, io).effects && e.Forward?) ==>
              DecodeHeader(data).Success? && DecodeHeader(data).value.kind == TYPE_DATA
  {
    hide DecodeHeader, OnHeartbeat, OnData, CountRx;
    if DecodeHeader(data).Success? {
      var h := DecodeHeader(data).value;
      HeartbeatOnlyAcks(cfg, CountRx(s, h.clientID, from, |data|), h.clientID, data[HEADER_SIZE..], from, now);
    }
  }

  lemma TunParcelsReachNoOther(owner: UdpAddr -> ClientID, ids: set<ClientID>, s: State, payload: Bytes, io: Io)
    requires PortsDisjoint(owner, ids) && KnownWhereTheyAre(owner, ids, s) && TunOrderFits(s, payload, io)
    ensures forall p :: p in Parcels(OnTun(s, payload, io).effects) ==> ReachesNoOther(owner, ids, p)
  {
    hide OnTun, TunOrderFits, PortsDisjoint, Belongs, KnownAs, ReachesNoOther;
    TunCopiesGoToRecipient(s, payload, io);
    forall e | e in OnTun(s, payload, io).effects
      ensures ReachesNoOther(owner, ids, Parcel(e.client, e.to, e.packet))
    {
      var sess := s.sessions[e.client];
      var t :| KnownAs(sess, t) && (e.to == t || (sess.replyPort > 0 && e.to == UdpAddr(t.host, sess.replyPort)));
      assert Knows(s, e.client, t);
      KnownReachesNoOther(owner, ids, Parcel(e.client, e.to, e.packet), t, sess.replyPort);
    }
  }

  ghost predicate GoodOutput(pool: map<ClientID, IPv4>, client: ClientID, output: seq<Output>) {
    forall x :: x in output ==> Addressed(pool, client, x.sender, x.payload)
  }

  ghost predicate TrafficInvariant(owner: UdpAddr -> ClientID, ids: set<ClientID>, world: World) {
    && (forall p :: p in world.relayed ==> ReachesNoOther(owner, ids, p))
    && forall c :: c in world.endpoints ==> GoodOutput(world.sys.server.pool, c, world.endpoints[c].output)
  }

  lemma TakenIsGood(pool: map<ClientID, IPv4>, ep: Endpoint, p: Parcel, w: WindowSize)
    requires GoodParcel(pool, p) && GoodOutput(pool, p.client, ep.output)
    ensures GoodOutput(pool, p.client, Taken(ep, p.packet, w).output)
  {
    hide DecodeHeader, Observe, Addressed;
  }

  lemma ActionReachesNoOther(cfg: Config, owner: UdpAddr -> ClientID, ids: set<ClientID>, sys: System, a: Action,
        now: Time)
    requires PortsDisjoint(owner, ids) && FairOrder(cfg, sys.server, a)
    requires KnownWhereTheyAre(owner, ids, sys.server)
    requires KnownWhereTheyAre(owner, ids, Act(cfg, owner, sys, a, now).server)
    ensures forall p :: p in SentOn(cfg, sys.server, a, now) ==> ReachesNoOther(owner, ids, p)
  {
    hide OnPacket, OnTun, KnownWhereTheyAre, ReachesNoOther, Parcels, PortsDisjoint, TunOrderFits, OrderFits;
    match a
    case ServerReceives(d, io) => ParcelsReachNoOther(cfg, owner, ids, sys.server, d, now, io);
    case ServerReadsTun(payload, io) => TunParcelsReachNoOther(owner, ids, sys.server, payload, io);
    case _ =>
  }

  lemma HappenKeepsTraffic(cfg: Config, owner: UdpAddr -> ClientID, ids: set<ClientID>, world: World, x: Happening,
        w: WindowSize, now: Time)
    requires WorldInvariant(cfg, owner, ids, world) && Possible(cfg, owner, world, x)
    requires PortsDisjoint(owner, ids) && TrafficInvariant(owner, ids, world)
    ensures TrafficInvariant(owner, ids, Happen(cfg, owner, world, x, w, now))
  {
    hide LeaseInvariant, Enabled, Act, SentOn, GoodParcel, PoolGrows, Taken, KnownWhereTheyAre, GoodOutput,
         FairOrder, Unspoofed, PortsDisjoint, ReachesNoOther;
    match x
    case Protocol(a) =>
      HappenKeeps(cfg, owner, ids, world, x, w, now);
      ActionReachesNoOther(cfg, owner, ids, world.sys, a, now);
      OutputStaysGood(world.sys.server.pool, Act(cfg, owner, world.sys, a, now).server.pool);
    case OpenTun(id) =>
    case Deliver(parcel) => DeliveryKeepsTraffic(cfg, owner, ids, world, parcel, w, now);
  }

  lemma DeliveryKeepsTraffic(cfg: Config, owner: UdpAddr -> ClientID, ids: set<ClientID>, world: World, p: Parcel,
        w: WindowSize, now: Time)
    requires WorldInvariant(cfg, owner, ids, world) && Possible(cfg, owner, world, Deliver(p))
    requires TrafficInvariant(owner, ids, world)
    ensures TrafficInvariant(owner, ids, Happen(cfg, owner, world, Deliver(p), w, now))
  {
    hide LeaseInvariant, GoodParcel, Taken, KnownWhereTheyAre, GoodOutput;
    TakenIsGood(world.sys.server.pool, world.endpoints[p.client], p, w);
  }

  lemma OutputStaysGood(before: map<ClientID, IPv4>, after: map<ClientID, IPv4>)
    requires PoolGrows(before, after)
    ensures forall c, output :: GoodOutput(before, c, output) ==> GoodOutput(after, c, output)
  {
    hide Addressed, PoolGrows;
    GrowthKeepsGood(before, after);
  }

  // ---- Whole runs ----

  datatype TimedHappening = TimedHappening(x: Happening, now: Time)

  function WorldAfter(cfg: Config, owner: UdpAddr -> ClientID, world: World, xs: seq<TimedHappening>, w: WindowSize)
    : World
  {
    if xs == [] then world
    else
      var n := |xs| - 1;
      Happen(cfg, owner, WorldAfter(cfg, owner, world, xs[..n], w), xs[n].x, w, xs[n].now)
  }

  ghost predicate PossibleRun(cfg: Config, owner: UdpAddr -> ClientID, world: World, xs: seq<TimedHappening>,
                              w: WindowSize) {
    forall i :: 0 <= i < |xs| ==> Possible(cfg, owner, WorldAfter(cfg, owner, world, xs[..i], w), xs[i].x)
  }

  lemma {:induction false} RunKeepsWorld(cfg: Config, owner: UdpAddr -> ClientID, ids: set<ClientID>, world: World,
        xs: seq<TimedHappening>, w: WindowSize)
    requires WorldInvariant(cfg, owner, ids, world) && PossibleRun(cfg, owner, world, xs, w)
    ensures WorldInvariant(cfg, owner, ids, WorldAfter(cfg, owner, world, xs, w))
    ensures PortsDisjoint(owner, ids) && TrafficInvariant(owner, ids, world) ==>
              TrafficInvariant(owner, ids, WorldAfter(cfg, owner, world, xs, w))
  {
    hide WorldInvariant, TrafficInvariant, Possible, Happen, PortsDisjoint;
    if xs != [] {
      var n := |xs| - 1;
      assert forall i :: 0 <= i < n ==> xs[..n][..i] == xs[..i];
      RunKeepsWorld(cfg, owner, ids, world, xs[..n], w);
      var before := WorldAfter(cfg, owner, world, xs[..n], w);
      HappenKeeps(cfg, owner, ids, before, xs[n].x, w, xs[n].now);
      if PortsDisjoint(owner, ids) && TrafficInvariant(owner, ids, world) {
        HappenKeepsTraffic(cfg, owner, ids, before, xs[n].x, w, xs[n].now);
      }
    }
  }

  lemma BeginIsGood(cfg: Config, owner: UdpAddr -> ClientID, saved: map<ClientID, Lease>, ids: set<ClientID>)
    requires GoodFile(cfg, saved)
    ensures WorldInvariant(cfg, owner, ids, Begin(saved, ids)) && TrafficInvariant(owner, ids, Begin(saved, ids))
  {
    hide LeaseInvariant;
    StartKeepsLeases(cfg, owner, saved, ids);
  }

  /**
   * What a client wrote is addressed to its lease, comes from the lease of the client its header names, and no other
   * client uses either address.
   */
  ghost predicate OwnTraffic(world: World, client: ClientID, x: Output) {
    var pool, clients := world.sys.server.pool, world.sys.clients;
    && Addressed(pool, client, x.sender, x.payload)
    && (forall c :: c in clients && clients[c].virtualIP == Destination(x.payload) ==>
          c == client || Destination(x.payload) == UNSPECIFIED)
    && (x.sender != 0 ==> forall c :: c in clients && clients[c].virtualIP == Source(x.payload) ==>
          c == x.sender || Source(x.payload) == UNSPECIFIED)
  }

  ghost predicate OnlyOwnTraffic(world: World) {
    forall c, x :: c in world.endpoints && x in world.endpoints[c].output ==> OwnTraffic(world, c, x)
  }

  /** Different clients hold different leases, so an address in use points to one client. */
  lemma AddressPointsToHolder(cfg: Config, owner: UdpAddr -> ClientID, sys: System, holder: ClientID, ip: IPv4)
    requires LeaseInvariant(cfg, owner, sys) && Leased(sys.server.pool, holder, ip)
    ensures forall c :: c in sys.clients && sys.clients[c].virtualIP == ip ==> c == holder || ip == UNSPECIFIED
  {
    InvariantIsConsistent(cfg, owner, sys);
    hide LeaseInvariant, GoodHeartbeat;
  }

  lemma HolderIsLeased(pool: map<ClientID, IPv4>, c: ClientID)
    ensures c in pool ==> Leased(pool, c, pool[c])
  {}

  /**
   * In every run without administration, over a network that loses, duplicates and reorders, with clients and server
   * restarting, if no client sits behind another one's ReplyPort: everything a client ever writes to its TUN device
   * is addressed to its own lease and comes from the lease of its sender (or from the server), and no other client
   * uses these addresses.
   */
  lemma ClientsWriteOwnTraffic(cfg: Config, owner: UdpAddr -> ClientID, saved: map<ClientID, Lease>,
                               ids: set<ClientID>, xs: seq<TimedHappening>, w: WindowSize)
    requires GoodFile(cfg, saved) && PossibleRun(cfg, owner, Begin(saved, ids), xs, w) && PortsDisjoint(owner, ids)
    ensures OnlyOwnTraffic(WorldAfter(cfg, owner, Begin(saved, ids), xs, w))
  {
    hide LeaseInvariant, PossibleRun, WorldAfter, Begin, Source, Destination, Leased, PortsDisjoint;
    BeginIsGood(cfg, owner, saved, ids);
    RunKeepsWorld(cfg, owner, ids, Begin(saved, ids), xs, w);
    var world := WorldAfter(cfg, owner, Begin(saved, ids), xs, w);
    forall c, x | c in world.endpoints && x in world.endpoints[c].output ensures OwnTraffic(world, c, x) {
      assert GoodOutput(world.sys.server.pool, c, world.endpoints[c].output);
      HolderIsLeased(world.sys.server.pool, c);
      AddressPointsToHolder(cfg, owner, world.sys, c, Destination(x.payload));
      if x.sender != 0 { AddressPointsToHolder(cfg, owner, world.sys, x.sender, Source(x.payload)); }
    }
  }
}
