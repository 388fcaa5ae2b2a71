/**
 * internal/server/server.go and webapi.go: what each locked handler does to the server's maps,
 * as a function from state to state. The class in Server.dfy carries the handlers out in place.
 */
module ServerModel {
  import opened Basics
  import opened Packet
  import opened Dedup
  import opened Allocation
  import opened Checksum

  type Time = int

  /** A UDP source address; host stands for IP and zone. */
  datatype UdpAddr = UdpAddr(host: nat, port: UInt16)

  const NO_NIC := PathRTT([], 0, 0, 0)

  datatype AddrInfo = AddrInfo(lastSeen: Time, rxBytes: nat, nic: PathRTT)

  datatype Session = Session(
    virtualIP: IPv4, prefixLen: Byte, sendMode: Byte, replyPort: UInt16, deviceName: Bytes,
    addrs: map<UdpAddr, AddrInfo>, lastSeen: Time, lastDataAddr: Option<UdpAddr>,
    rxBytes: nat, txBytes: nat)

  datatype Lease = Lease(ip: IPv4, name: Bytes)

  datatype Config = Config(
    serverIP: IPv4, prefixLen: Byte, subnet: Option<Subnet>, teamKeyHash: Hash,
    clientTimeout: int, addrTimeout: int, mtu: UInt16, window: WindowSize, hasTun: bool)

  /** saved is the content of the IP pool file. */
  datatype State = State(
    sessions: map<ClientID, Session>, routes: map<IPv4, ClientID>,
    pool: map<ClientID, IPv4>, names: map<ClientID, Bytes>, saved: map<ClientID, Lease>,
    dedup: map<ClientID, Window>, seqNo: UInt32, totalRx: nat, totalTx: nat)

  /** What leaves the server: acks, forwarded packets, packets for its own TUN device. */
  datatype Effect =
    | SendAck(to: UdpAddr, packet: Bytes)
    | Forward(to: UdpAddr, client: ClientID, packet: Bytes)
    | ToTun(payload: Bytes)

  datatype Next = Next(state: State, effects: seq<Effect>)

  /** The environment's choices: the iteration order over a session's addresses, and which socket writes succeed. */
  datatype Io = Io(order: seq<UdpAddr>, ok: set<UdpAddr>)

  // ---- Persistence ----

  function Entries(pool: map<ClientID, IPv4>, names: map<ClientID, Bytes>): map<ClientID, Lease> {
    map c | c in pool :: Lease(pool[c], if c in names then names[c] else [])
  }

  function LoadedPool(saved: map<ClientID, Lease>): map<ClientID, IPv4> { map c | c in saved :: saved[c].ip }

  function LoadedNames(saved: map<ClientID, Lease>): map<ClientID, Bytes> {
    map c | c in saved && saved[c].name != [] :: saved[c].name
  }

  function Saved(s: State): State { s.(saved := Entries(s.pool, s.names)) }

  /** A server process started on the given pool file. */
  function Boot(saved: map<ClientID, Lease>): State {
    State(map[], map[], LoadedPool(saved), LoadedNames(saved), saved, map[], 0, 0, 0)
  }

  // ---- Acks ----

  function AckPacket(seqNo: UInt32, a: Ack): Bytes {
    HeaderBytes(Header(VERSION1, TYPE_HEARTBEAT_ACK, false, 0, seqNo)) + AckBytes(a)
  }

  function Acknowledge(cfg: Config, s: State, to: UdpAddr, ip: IPv4, prefixLen: Byte, status: Byte): Next {
    Next(s.(seqNo := (s.seqNo + 1) % TWO32),
         [SendAck(to, AckPacket(s.seqNo, Ack(ip, prefixLen, status, cfg.mtu)))])
  }

  // ---- Heartbeats ----

  /** allocateIP's effect on pool, names and file; the address is Choose's. */
  function Allocated(cfg: Config, s: State, id: ClientID, name: Bytes): State {
    var named := if name != [] then s.(names := s.names[id := name]) else s;
    match Choose(s.pool, id, cfg.subnet, cfg.serverIP)
    case None => named
    case Some(ip) =>
      if id in s.pool then (if name != [] then Saved(named) else named)
      else Saved(named.(pool := named.pool[id := ip]))
  }

  /** A pool entry for a client that brought its own address. */
  function Pooled(s: State, id: ClientID, ip: IPv4, name: Bytes): State {
    if id in s.pool then s
    else Saved(s.(pool := s.pool[id := ip], names := if name != [] then s.names[id := name] else s.names))
  }

  /** The address and prefix of a new session. */
  function Assigned(cfg: Config, s: State, id: ClientID, hb: Heartbeat): (IPv4, Byte) {
    if hb.fixed.virtualIP != UNSPECIFIED then (hb.fixed.virtualIP, hb.fixed.prefixLen)
    else
      match Choose(s.pool, id, cfg.subnet, cfg.serverIP)
      case None => (UNSPECIFIED, hb.fixed.prefixLen)
      case Some(ip) => (ip, cfg.prefixLen)
  }

  function Register(cfg: Config, s: State, id: ClientID, hb: Heartbeat, now: Time): State {
    var (ip, prefixLen) := Assigned(cfg, s, id, hb);
    var s1 := if hb.fixed.virtualIP == UNSPECIFIED then Allocated(cfg, s, id, hb.deviceName) else s;
    var session := Session(ip, prefixLen, hb.fixed.sendMode, hb.fixed.replyPort, hb.deviceName, map[], now, None, 0, 0);
    var s2 := s1.(sessions := s1.sessions[id := session]);
    if ip == UNSPECIFIED then s2
    else Pooled(s2.(routes := s2.routes[ip := id]), id, ip, hb.deviceName)
  }

  function Refresh(sess: Session, hb: Heartbeat, now: Time): Session {
    sess.(sendMode := hb.fixed.sendMode, replyPort := hb.fixed.replyPort, lastSeen := now,
          deviceName := if hb.deviceName != [] then hb.deviceName else sess.deviceName)
  }

  /** The other addresses recorded for the same interface name. */
  function StaleAddrs(addrs: map<UdpAddr, AddrInfo>, from: UdpAddr, name: Bytes): set<UdpAddr> {
    set a | a in addrs && a != from && name != [] && addrs[a].nic.name == name
  }

  /** The source address of a heartbeat becomes known, or is renewed. */
  function HeardFrom(sess: Session, from: UdpAddr, paths: seq<PathRTT>, now: Time): Session {
    var known := if from in sess.addrs then sess.addrs[from] else AddrInfo(now, 0, NO_NIC);
    var ai := known.(lastSeen := now);
    if paths == [] then sess.(addrs := sess.addrs[from := ai])
    else sess.(addrs := (sess.addrs - StaleAddrs(sess.addrs, from, paths[0].name))[from := ai.(nic := paths[0])])
  }

  predicate Conflicts(s: State, id: ClientID, vip: IPv4) {
    id in s.sessions && vip != UNSPECIFIED && s.sessions[id].virtualIP != vip
  }

  function OnHeartbeat(cfg: Config, s: State, id: ClientID, payload: Bytes, from: UdpAddr, now: Time): Next {
    match ParseHeartbeat(payload)
    case Failure(_) => Next(s, [])
    case Success(hb) =>
      if hb.fixed.teamKeyHash != cfg.teamKeyHash then
        Acknowledge(cfg, s, from, UNSPECIFIED, 0, ACK_TEAM_KEY_MISMATCH)
      else if id == 0 then Next(s, [])
      else if Conflicts(s, id, hb.fixed.virtualIP) then
        Acknowledge(cfg, s, from, s.sessions[id].virtualIP, s.sessions[id].prefixLen, ACK_CLIENT_ID_CONFLICT)
      else
        var s1 := Admit(cfg, s, id, hb, from, now);
        Acknowledge(cfg, s1, from, s1.sessions[id].virtualIP, s1.sessions[id].prefixLen, ACK_OK)
  }

  /** The locked part of an accepted heartbeat. */
  function Admit(cfg: Config, s: State, id: ClientID, hb: Heartbeat, from: UdpAddr, now: Time): (s': State)
    ensures id in s'.sessions
  {
    var s1 := if id in s.sessions then s.(sessions := s.sessions[id := Refresh(s.sessions[id], hb, now)])
              else Register(cfg, s, id, hb, now);
    s1.(sessions := s1.sessions[id := HeardFrom(s1.sessions[id], from, hb.pathRTTs, now)])
  }

  // ---- Data ----

  /** The addresses a packet for the session is written to. */
  function Targets(sess: Session, io: Io): seq<UdpAddr> {
    if sess.sendMode != SEND_MODE_FAILOVER then io.order
    else if sess.lastDataAddr.Some? then [sess.lastDataAddr.value]
    else io.order[..if |io.order| < 1 then |io.order| else 1]
  }

  /** sendTo: the address itself and, if that write succeeded, its ReplyPort variant. */
  function Copies(sess: Session, io: Io, to: UdpAddr): seq<UdpAddr> {
    var variant := UdpAddr(to.host, sess.replyPort);
    if to !in io.ok then []
    else if sess.replyPort > 0 && sess.replyPort != to.port && variant in io.ok then [to, variant]
    else [to]
  }

  function Fanout(sess: Session, io: Io, targets: seq<UdpAddr>, id: ClientID, packet: Bytes): seq<Effect> {
    if targets == [] then []
    else
      var n := |targets| - 1;
      Fanout(sess, io, targets[..n], id, packet) + Deliveries(Copies(sess, io, targets[n]), id, packet)
  }

  function Deliveries(copies: seq<UdpAddr>, id: ClientID, packet: Bytes): seq<Effect> {
    seq(|copies|, i requires 0 <= i < |copies| => Forward(copies[i], id, packet))
  }

  /** How many of the targets were written to; only these count as sent bytes. */
  function Written(targets: seq<UdpAddr>, io: Io): nat {
    if targets == [] then 0
    else Written(targets[..|targets| - 1], io) + if targets[|targets| - 1] in io.ok then 1 else 0
  }

  function SendToClient(s: State, id: ClientID, packet: Bytes, io: Io): Next {
    if id !in s.sessions || s.sessions[id].addrs == map[] then Next(s, [])
    else
      var sess := s.sessions[id];
      var targets := Targets(sess, io);
      var sent := Written(targets, io) * |packet|;
      Next(s.(sessions := s.sessions[id := sess.(txBytes := sess.txBytes + sent)], totalTx := s.totalTx + sent),
           Fanout(sess, io, targets, id, packet))
  }

  predicate InnerIPv4(payload: Bytes) { |payload| >= 20 && payload[0] / 16 == 4 }

  function DataFrom(sess: Session, from: UdpAddr, now: Time): Session {
    sess.(addrs := if from in sess.addrs then sess.addrs[from := sess.addrs[from].(lastSeen := now)] else sess.addrs,
          lastSeen := now, lastDataAddr := Some(from))
  }

  /** A packet that survives deduplication and source validation. */
  predicate Acceptable(s: State, id: ClientID, payload: Bytes) {
    id in s.sessions && InnerIPv4(payload) && Source(payload) == s.sessions[id].virtualIP
  }

  function Route(cfg: Config, s: State, payload: Bytes, packet: Bytes, io: Io): Next
    requires InnerIPv4(payload)
  {
    var dst := Destination(payload);
    if dst == cfg.serverIP then Next(s, if cfg.hasTun then [ToTun(payload)] else [])
    else if dst !in s.routes then Next(s, [])
    else SendToClient(s, s.routes[dst], packet, io)
  }

  function OnData(cfg: Config, s: State, h: Header, payload: Bytes, packet: Bytes, from: UdpAddr, now: Time,
        io: Io): Next {
    var v := Observe(Lookup(s.dedup, h.clientID), h.seqNo, cfg.window);
    var s1 := s.(dedup := s.dedup[h.clientID := v.window]);
    if v.duplicate || !Acceptable(s1, h.clientID, payload) then Next(s1, [])
    else
      var s2 := s1.(sessions := s1.sessions[h.clientID := DataFrom(s1.sessions[h.clientID], from, now)]);
      Route(cfg, s2, payload, packet, io)
  }

  function CountedRx(sess: Session, from: UdpAddr, n: nat): Session {
    sess.(rxBytes := sess.rxBytes + n,
          addrs := if from !in sess.addrs then sess.addrs
                   else sess.addrs[from := sess.addrs[from].(rxBytes := sess.addrs[from].rxBytes + n)])
  }

  /** Received bytes are counted before anything else looks at the packet. */
  function CountRx(s: State, id: ClientID, from: UdpAddr, n: nat): State {
    var s1 := s.(totalRx := s.totalRx + n);
    if id !in s.sessions then s1 else s1.(sessions := s.sessions[id := CountedRx(s.sessions[id], from, n)])
  }

  function OnPacket(cfg: Config, s: State, data: Bytes, from: UdpAddr, now: Time, io: Io): Next {
    match DecodeHeader(data)
    case Failure(_) => Next(s, [])
    case Success(h) =>
      var s1 := CountRx(s, h.clientID, from, |data|);
      if h.kind == TYPE_HEARTBEAT then OnHeartbeat(cfg, s1, h.clientID, data[HEADER_SIZE..], from, now)
      else if h.kind == TYPE_DATA then OnData(cfg, s1, h, data[HEADER_SIZE..], data, from, now, io)
      else Next(s1, [])
  }

  /** A packet read from the server's own TUN device goes out under client ID 0. */
  function OnTun(s: State, payload: Bytes, io: Io): Next {
    if !InnerIPv4(payload) || Destination(payload) !in s.routes then Next(s, [])
    else
      var packet := HeaderBytes(Header(VERSION1, TYPE_DATA, false, 0, s.seqNo)) + payload;
      SendToClient(s.(seqNo := (s.seqNo + 1) % TWO32), s.routes[Destination(payload)], packet, io)
  }

  // ---- Cleanup ----

  function FreshAddrs(cfg: Config, sess: Session, now: Time): map<UdpAddr, AddrInfo> {
    map a | a in sess.addrs && now - sess.addrs[a].lastSeen <= cfg.addrTimeout :: sess.addrs[a]
  }

  predicate Expired(cfg: Config, sess: Session, now: Time) {
    FreshAddrs(cfg, sess, now) == map[] && now - sess.lastSeen > cfg.clientTimeout
  }

  function ExpiredIDs(cfg: Config, s: State, now: Time): set<ClientID> {
    set c | c in s.sessions && Expired(cfg, s.sessions[c], now)
  }

  function Cleanup(cfg: Config, s: State, now: Time): State {
    var gone := ExpiredIDs(cfg, s, now);
    var kept := map c | c in s.sessions && c !in gone :: s.sessions[c].(addrs := FreshAddrs(cfg, s.sessions[c], now));
    s.(sessions := kept,
       routes := s.routes - (set c | c in gone :: s.sessions[c].virtualIP),
       dedup := s.dedup - gone)
  }

  // ---- Administration ----

  /** The checks of UpdateDeviceIP; newIP is None when the text did not parse. */
  predicate MayUpdate(cfg: Config, s: State, id: ClientID, newIP: Option<IPv4>) {
    && newIP.Some?
    && (cfg.subnet.Some? ==> cfg.subnet.value.Contains(newIP.value))
    && newIP.value != cfg.serverIP
    && id in s.pool
    && forall c :: c in s.pool && c != id ==> s.pool[c] != newIP.value
  }

  datatype AdminError = InvalidIP | OutsideSubnet | IsServerIP | NotFound | InUse

  /** The first check of UpdateDeviceIP that fails. */
  function RefuseUpdate(cfg: Config, s: State, id: ClientID, newIP: Option<IPv4>): (r: Option<AdminError>)
    ensures r.None? <==> MayUpdate(cfg, s, id, newIP)
  {
    if newIP.None? then Some(InvalidIP)
    else if cfg.subnet.Some? && !cfg.subnet.value.Contains(newIP.value) then Some(OutsideSubnet)
    else if newIP.value == cfg.serverIP then Some(IsServerIP)
    else if id !in s.pool then Some(NotFound)
    else if exists c :: c in s.pool && c != id && s.pool[c] == newIP.value then Some(InUse)
    else None
  }

  function Reassigned(cfg: Config, s: State, id: ClientID, ip: IPv4): State
    requires id in s.pool
  {
    var s1 := Saved(s.(pool := s.pool[id := ip], routes := (s.routes - {s.pool[id]})[ip := id]));
    if id in s1.sessions then
      s1.(sessions := s1.sessions[id := s1.sessions[id].(virtualIP := ip, prefixLen := cfg.prefixLen)])
    else s1
  }

  /** An OK ack to each of the given addresses, in order. */
  function Notify(cfg: Config, s: State, addrs: seq<UdpAddr>, ip: IPv4): Next {
    if addrs == [] then Next(s, [])
    else
      var before := Notify(cfg, s, addrs[..|addrs| - 1], ip);
      var last := Acknowledge(cfg, before.state, addrs[|addrs| - 1], ip, cfg.prefixLen, ACK_OK);
      Next(last.state, before.effects + last.effects)
  }

  function UpdateDeviceIP(cfg: Config, s: State, id: ClientID, newIP: Option<IPv4>, io: Io): Next {
    if !MayUpdate(cfg, s, id, newIP) then Next(s, [])
    else
      Notify(cfg, Reassigned(cfg, s, id, newIP.value), if id in s.sessions then io.order else [], newIP.value)
  }

  function DeleteDevice(s: State, id: ClientID): State {
    if id !in s.pool then s
    else
      var s1 := Saved(s.(pool := s.pool - {id}, names := s.names - {id}, routes := s.routes - {s.pool[id]}));
      if id in s1.sessions then s1.(sessions := s1.sessions - {id}, dedup := s1.dedup - {id}) else s1
  }

  function DeleteClient(s: State, id: ClientID): State {
    if id !in s.sessions then s
    else
      Saved(s.(routes := s.routes - {s.sessions[id].virtualIP}, sessions := s.sessions - {id},
               pool := s.pool - {id}, names := s.names - {id}))
  }

  // ---- The state machine ----

  datatype Step =
    | Receive(data: Bytes, from: UdpAddr, io: Io)
    | ReadTun(payload: Bytes, io: Io)
    | Tick
    | Update(id: ClientID, newIP: Option<IPv4>, io: Io)
    | RemoveDevice(id: ClientID)
    | RemoveClient(id: ClientID)
    | Restart

  function Apply(cfg: Config, s: State, step: Step, now: Time): Next {
    match step
    case Receive(data, from, io) => OnPacket(cfg, s, data, from, now, io)
    case ReadTun(payload, io) => OnTun(s, payload, io)
    case Tick => Next(Cleanup(cfg, s, now), [])
    case Update(id, newIP, io) => UpdateDeviceIP(cfg, s, id, newIP, io)
    case RemoveDevice(id) => Next(DeleteDevice(s, id), [])
    case RemoveClient(id) => Next(DeleteClient(s, id), [])
    case Restart => Next(Boot(s.saved), [])
  }
}
