/** Properties of the server state machine: consistency of the three maps, faithful forwarding. */
module ServerInvariants {
  import opened Basics
  import opened Packet
  import opened Dedup
  import opened Allocation
  import opened Checksum
  import opened ServerModel

  // ---- The invariant ----

  /** Leases are injective and avoid the server; the session of a client and its route follow its lease. */
  ghost predicate Consistent(cfg: Config, s: State) {
    && (forall c, d :: c in s.pool && d in s.pool && s.pool[c] == s.pool[d] ==> c == d)
    && (forall c :: c in s.pool ==> s.pool[c] != cfg.serverIP)
    && (forall c :: c in s.sessions ==> SessionFollowsLease(s, c))
    && (forall ip :: ip in s.routes ==> s.routes[ip] in s.pool && s.pool[s.routes[ip]] == ip)
  }

  ghost predicate SessionFollowsLease(s: State, c: ClientID)
    requires c in s.sessions
  {
    var vip := s.sessions[c].virtualIP;
    if c in s.pool then vip == s.pool[c] && (vip != UNSPECIFIED ==> vip in s.routes && s.routes[vip] == c)
    else vip == UNSPECIFIED
  }

  /** The pool file always holds the current pool. */
  ghost predicate Persisted(s: State) { s.saved == Entries(s.pool, s.names) }

  /** An address that a client without a session may claim: its own lease, or one that nobody holds. */
  predicate MayClaim(cfg: Config, s: State, id: ClientID, vip: IPv4) {
    vip == UNSPECIFIED || (if id in s.pool then s.pool[id] == vip else vip !in s.pool.Values && vip != cfg.serverIP)
  }

  /** A heartbeat that opens a session. */
  predicate Opens(cfg: Config, s: State, id: ClientID, hb: Heartbeat) {
    hb.fixed.teamKeyHash == cfg.teamKeyHash && id != 0 && id !in s.sessions
  }

  /** The heartbeat in a packet, if it is one. */
  function HeartbeatIn(data: Bytes): Option<(ClientID, Heartbeat)> {
    match DecodeHeader(data)
    case Failure(_) => None
    case Success(h) =>
      if h.kind != TYPE_HEARTBEAT then None else
      match ParseHeartbeat(data[HEADER_SIZE..])
      case Failure(_) => None
      case Success(hb) => Some((h.clientID, hb))
  }

  /** The one thing the server trusts its clients with: the address a session-opening heartbeat claims. */
  predicate Legal(cfg: Config, s: State, step: Step) {
    step.Receive? && HeartbeatIn(step.data).Some? ==>
      var (id, hb) := HeartbeatIn(step.data).value;
      Opens(cfg, s, id, hb) ==> MayClaim(cfg, s, id, hb.fixed.virtualIP)
  }

  // ---- Changes that no map of the invariant notices ----

  /** Same leases, routes and file, and the same clients with the same addresses. */
  ghost predicate SameMaps(s: State, t: State) {
    && t.pool == s.pool && t.routes == s.routes && t.names == s.names && t.saved == s.saved
    && t.sessions.Keys == s.sessions.Keys
    && forall c :: c in s.sessions ==> t.sessions[c].virtualIP == s.sessions[c].virtualIP
  }

  lemma SameMapsSameInvariant(cfg: Config, s: State, t: State)
    requires SameMaps(s, t)
    ensures Consistent(cfg, t) <==> Consistent(cfg, s)
    ensures Persisted(t) <==> Persisted(s)
  {
    assert forall c :: c in s.sessions ==> (SessionFollowsLease(t, c) <==> SessionFollowsLease(s, c));
  }

  lemma SendSameMaps(s: State, id: ClientID, packet: Bytes, io: Io)
    ensures SameMaps(s, SendToClient(s, id, packet, io).state)
  {
    hide Written, Fanout, Targets;
  }

  lemma DataSameMaps(cfg: Config, s: State, h: Header, payload: Bytes, packet: Bytes, from: UdpAddr, now: Time, io: Io)
    ensures SameMaps(s, OnData(cfg, s, h, payload, packet, from, now, io).state)
  {
    hide Observe, SendToClient, Source, Destination;
    var v := Observe(Lookup(s.dedup, h.clientID), h.seqNo, cfg.window);
    var s1 := s.(dedup := s.dedup[h.clientID := v.window]);
    if !v.duplicate && Acceptable(s1, h.clientID, payload) {
      var s2 := s1.(sessions := s1.sessions[h.clientID := DataFrom(s1.sessions[h.clientID], from, now)]);
      if Destination(payload) in s2.routes {
        SendSameMaps(s2, s2.routes[Destination(payload)], packet, io);
      }
    }
  }

  lemma NotifySameMaps(cfg: Config, s: State, addrs: seq<UdpAddr>, ip: IPv4)
    ensures SameMaps(s, Notify(cfg, s, addrs, ip).state)
  {
    if addrs != [] { NotifySameMaps(cfg, s, addrs[..|addrs| - 1], ip); }
  }

  // ---- Opening a session ----

  lemma ChoiceIsClaimable(cfg: Config, s: State, id: ClientID)
    ensures var r := Choose(s.pool, id, cfg.subnet, cfg.serverIP); r.Some? ==> MayClaim(cfg, s, id, r.value)
  {
    hide Choose;
    if id !in s.pool { NewLeaseIsLowestFree(s.pool, id, cfg.subnet, cfg.serverIP); }
  }

  /** Client id now has a session at ip, with its route and lease; nothing else moved. */
  ghost predicate SessionOpened(s: State, t: State, id: ClientID, ip: IPv4) {
    && t.sessions.Keys == s.sessions.Keys + {id} && t.sessions[id].virtualIP == ip
    && (forall c :: c in s.sessions && c != id ==> t.sessions[c] == s.sessions[c])
    && t.routes == (if ip == UNSPECIFIED then s.routes else s.routes[ip := id])
    && t.pool == (if id in s.pool || ip == UNSPECIFIED then s.pool else s.pool[id := ip])
  }

  lemma AllocatedMaps(cfg: Config, s: State, id: ClientID, name: Bytes)
    ensures var t, r := Allocated(cfg, s, id, name), Choose(s.pool, id, cfg.subnet, cfg.serverIP);
            && t == s.(pool := t.pool, names := t.names, saved := t.saved)
            && t.pool == (if id in s.pool || r.None? then s.pool else s.pool[id := r.value])
            && (Persisted(s) ==> Persisted(t))
  {
    hide Choose;
    if id !in s.pool {
      assert Entries(s.pool, s.names[id := name]) == Entries(s.pool, s.names);
    }
  }

  lemma PooledMaps(s: State, id: ClientID, ip: IPv4, name: Bytes)
    ensures var t := Pooled(s, id, ip, name);
            && t == s.(pool := t.pool, names := t.names, saved := t.saved)
            && t.pool == (if id in s.pool then s.pool else s.pool[id := ip])
            && (Persisted(s) ==> Persisted(t))
  {}

  /** What Register makes of the state: a new session, its route, and a lease if there was none. */
  lemma RegisterShape(cfg: Config, s: State, id: ClientID, hb: Heartbeat, now: Time)
    ensures var t, (ip, prefixLen) := Register(cfg, s, id, hb, now), Assigned(cfg, s, id, hb);
            && t == s.(pool := t.pool, names := t.names, saved := t.saved,
                       routes := if ip == UNSPECIFIED then s.routes else s.routes[ip := id],
                       sessions := s.sessions[id := Session(ip, prefixLen, hb.fixed.sendMode, hb.fixed.replyPort,
                                                            hb.deviceName, map[], now, None, 0, 0)])
            && t.pool == (if id in s.pool || ip == UNSPECIFIED then s.pool else s.pool[id := ip])
            && (Persisted(s) ==> Persisted(t))
  {
    hide Choose, Entries, Allocated, Pooled;
    NewLeaseNotZero(cfg, s, id);
    var (ip, prefixLen) := Assigned(cfg, s, id, hb);
    AllocatedMaps(cfg, s, id, hb.deviceName);
    var s1 := if hb.fixed.virtualIP == UNSPECIFIED then Allocated(cfg, s, id, hb.deviceName) else s;
    var session := Session(ip, prefixLen, hb.fixed.sendMode, hb.fixed.replyPort, hb.deviceName, map[], now, None, 0, 0);
    var s2 := s1.(sessions := s1.sessions[id := session]);
    PooledMaps(s2.(routes := s2.routes[ip := id]), id, ip, hb.deviceName);
  }

  lemma RegisterOpens(cfg: Config, s: State, id: ClientID, hb: Heartbeat, now: Time)
    requires id !in s.sessions
    ensures SessionOpened(s, Register(cfg, s, id, hb, now), id, Assigned(cfg, s, id, hb).0)
    ensures Persisted(s) ==> Persisted(Register(cfg, s, id, hb, now))
  {
    hide Register, Assigned, Persisted;
    RegisterShape(cfg, s, id, hb, now);
  }

  lemma NewLeaseNotZero(cfg: Config, s: State, id: ClientID)
    ensures var r := Choose(s.pool, id, cfg.subnet, cfg.serverIP); id !in s.pool && r.Some? ==> r.value != UNSPECIFIED
  {
    hide Choose;
    if id !in s.pool { NewLeaseIsLowestFree(s.pool, id, cfg.subnet, cfg.serverIP); }
  }

  lemma ClaimKeepsSessions(cfg: Config, s: State, t: State, id: ClientID, ip: IPv4)
    requires Consistent(cfg, s) && id !in s.sessions && SessionOpened(s, t, id, ip) && MayClaim(cfg, s, id, ip)
    requires ip == UNSPECIFIED ==> id in s.pool ==> s.pool[id] == ip
    ensures forall c :: c in t.sessions ==> SessionFollowsLease(t, c)
  {
    forall c | c in t.sessions ensures SessionFollowsLease(t, c) {
      if c != id { assert SessionFollowsLease(s, c); }
    }
  }

  lemma ClaimKeepsConsistent(cfg: Config, s: State, t: State, id: ClientID, ip: IPv4)
    requires Consistent(cfg, s) && id !in s.sessions && SessionOpened(s, t, id, ip) && MayClaim(cfg, s, id, ip)
    requires ip == UNSPECIFIED ==> id in s.pool ==> s.pool[id] == ip
    ensures Consistent(cfg, t)
  {
    hide SessionFollowsLease;
    ClaimKeepsSessions(cfg, s, t, id, ip);
  }

  lemma BadClaimBreaksConsistent(cfg: Config, s: State, t: State, id: ClientID, ip: IPv4)
    requires id !in s.sessions && SessionOpened(s, t, id, ip) && !MayClaim(cfg, s, id, ip)
    ensures !Consistent(cfg, t)
  {
    if id in s.pool {
      assert !SessionFollowsLease(t, id);
    } else if ip in s.pool.Values {
      var d :| d in s.pool && s.pool[d] == ip;
      assert d in t.pool && id in t.pool && t.pool[d] == t.pool[id];
    } else {
      assert t.pool[id] == cfg.serverIP;
    }
  }

  /** Registration keeps the invariant exactly when the address the client claims may be claimed. */
  lemma RegisterConsistent(cfg: Config, s: State, id: ClientID, hb: Heartbeat, now: Time)
    requires Consistent(cfg, s) && id !in s.sessions
    ensures Consistent(cfg, Register(cfg, s, id, hb, now)) <==> MayClaim(cfg, s, id, hb.fixed.virtualIP)
  {
    hide Register, Consistent, SessionOpened, Choose;
    var t, ip := Register(cfg, s, id, hb, now), Assigned(cfg, s, id, hb).0;
    RegisterOpens(cfg, s, id, hb, now);
    ChoiceIsClaimable(cfg, s, id);
    if MayClaim(cfg, s, id, ip) {
      ClaimKeepsConsistent(cfg, s, t, id, ip);
    } else {
      BadClaimBreaksConsistent(cfg, s, t, id, ip);
    }
  }

  // ---- Every step ----

  lemma HeardFromSameMaps(s: State, id: ClientID, sess: Session)
    requires id in s.sessions && sess.virtualIP == s.sessions[id].virtualIP
    ensures SameMaps(s, s.(sessions := s.sessions[id := sess]))
  {}

  lemma CountRxSameMaps(s: State, id: ClientID, from: UdpAddr, n: nat)
    ensures SameMaps(s, CountRx(s, id, from, n))
  {}

  lemma AdmitConsistent(cfg: Config, s: State, id: ClientID, hb: Heartbeat, from: UdpAddr, now: Time)
    requires Consistent(cfg, s) && Persisted(s)
    ensures Persisted(Admit(cfg, s, id, hb, from, now))
    ensures Consistent(cfg, Admit(cfg, s, id, hb, from, now))
            <==> id in s.sessions || MayClaim(cfg, s, id, hb.fixed.virtualIP)
  {
    hide Consistent, Persisted, SameMaps, Register, MayClaim;
    var s1: State;
    if id in s.sessions {
      s1 := s.(sessions := s.sessions[id := Refresh(s.sessions[id], hb, now)]);
      HeardFromSameMaps(s, id, Refresh(s.sessions[id], hb, now));
      SameMapsSameInvariant(cfg, s, s1);
    } else {
      s1 := Register(cfg, s, id, hb, now);
      RegisterOpens(cfg, s, id, hb, now);
      RegisterConsistent(cfg, s, id, hb, now);
    }
    var sess := HeardFrom(s1.sessions[id], from, hb.pathRTTs, now);
    HeardFromSameMaps(s1, id, sess);
    SameMapsSameInvariant(cfg, s1, s1.(sessions := s1.sessions[id := sess]));
  }

  lemma AcknowledgeSameMaps(cfg: Config, s: State, to: UdpAddr, ip: IPv4, prefixLen: Byte, status: Byte)
    ensures SameMaps(s, Acknowledge(cfg, s, to, ip, prefixLen, status).state)
  {}

  lemma HeartbeatConsistent(cfg: Config, s: State, id: ClientID, payload: Bytes, from: UdpAddr, now: Time)
    requires Consistent(cfg, s) && Persisted(s)
    ensures var t := OnHeartbeat(cfg, s, id, payload, from, now).state;
            && Persisted(t)
            && (Consistent(cfg, t) <==>
                  (ParseHeartbeat(payload).Success? && Opens(cfg, s, id, ParseHeartbeat(payload).value) ==>
                     MayClaim(cfg, s, id, ParseHeartbeat(payload).value.fixed.virtualIP)))
  {
    hide Consistent, Persisted, SameMaps, Acknowledge, Admit, MayClaim;
    match ParseHeartbeat(payload)
    case Failure(_) =>
    case Success(hb) =>
      var s1 := Admit(cfg, s, id, hb, from, now);
      AdmitConsistent(cfg, s, id, hb, from, now);
      var sess := s1.sessions[id];
      AcknowledgeSameMaps(cfg, s1, from, sess.virtualIP, sess.prefixLen, ACK_OK);
      SameMapsSameInvariant(cfg, s1, Acknowledge(cfg, s1, from, sess.virtualIP, sess.prefixLen, ACK_OK).state);
      AcknowledgeSameMaps(cfg, s, from, UNSPECIFIED, 0, ACK_TEAM_KEY_MISMATCH);
      SameMapsSameInvariant(cfg, s, Acknowledge(cfg, s, from, UNSPECIFIED, 0, ACK_TEAM_KEY_MISMATCH).state);
      if id in s.sessions {
        var was := s.sessions[id];
        var refused := Acknowledge(cfg, s, from, was.virtualIP, was.prefixLen, ACK_CLIENT_ID_CONFLICT).state;
        AcknowledgeSameMaps(cfg, s, from, was.virtualIP, was.prefixLen, ACK_CLIENT_ID_CONFLICT);
        SameMapsSameInvariant(cfg, s, refused);
      }
  }

  lemma PacketConsistent(cfg: Config, s: State, data: Bytes, from: UdpAddr, now: Time, io: Io)
    requires Consistent(cfg, s) && Persisted(s)
    ensures var t := OnPacket(cfg, s, data, from, now, io).state;
            Persisted(t) && (Consistent(cfg, t) <==> Legal(cfg, s, Receive(data, from, io)))
  {
    hide Consistent, Persisted, OnHeartbeat, OnData, DecodeHeader, ParseHeartbeat;
    match DecodeHeader(data)
    case Failure(_) =>
    case Success(h) =>
      var s1 := CountRx(s, h.clientID, from, |data|);
      CountRxSameMaps(s, h.clientID, from, |data|);
      SameMapsSameInvariant(cfg, s, s1);
      if h.kind == TYPE_HEARTBEAT {
        HeartbeatConsistent(cfg, s1, h.clientID, data[HEADER_SIZE..], from, now);
      } else if h.kind == TYPE_DATA {
        DataSameMaps(cfg, s1, h, data[HEADER_SIZE..], data, from, now, io);
        SameMapsSameInvariant(cfg, s1, OnData(cfg, s1, h, data[HEADER_SIZE..], data, from, now, io).state);
      }
  }

  lemma CleanupConsistent(cfg: Config, s: State, now: Time)
    requires Consistent(cfg, s)
    ensures Consistent(cfg, Cleanup(cfg, s, now))
  {
    hide Expired, FreshAddrs;
    var t, gone := Cleanup(cfg, s, now), ExpiredIDs(cfg, s, now);
    assert forall c :: c in s.sessions ==> SessionFollowsLease(s, c);
    forall c | c in t.sessions ensures SessionFollowsLease(t, c) {
      var vip := s.sessions[c].virtualIP;
      assert vip != UNSPECIFIED ==> forall d :: d in gone ==> s.sessions[d].virtualIP != vip;
    }
  }

  /** Moving a lease and its route to a free address, together with the session if there is one. */
  lemma MoveConsistent(cfg: Config, s: State, t: State, id: ClientID, ip: IPv4)
    requires Consistent(cfg, s) && id in s.pool && ip != cfg.serverIP
    requires forall c :: c in s.pool && c != id ==> s.pool[c] != ip
    requires t.pool == s.pool[id := ip] && t.routes == (s.routes - {s.pool[id]})[ip := id]
    requires t.sessions.Keys == s.sessions.Keys
    requires forall c :: c in s.sessions ==>
      t.sessions[c].virtualIP == if c == id then ip else s.sessions[c].virtualIP
    ensures Consistent(cfg, t)
  {
    forall c | c in t.sessions ensures SessionFollowsLease(t, c) {
      assert SessionFollowsLease(s, c);
    }
    assert forall a :: a in t.routes && a != ip ==> a in s.routes && s.routes[a] != id;
  }

  lemma ReassignConsistent(cfg: Config, s: State, id: ClientID, ip: IPv4)
    requires Consistent(cfg, s) && id in s.pool && ip != cfg.serverIP
    requires forall c :: c in s.pool && c != id ==> s.pool[c] != ip
    ensures Consistent(cfg, Reassigned(cfg, s, id, ip))
  {
    hide Entries, Consistent;
    MoveConsistent(cfg, s, Reassigned(cfg, s, id, ip), id, ip);
  }

  lemma ReassignPersists(cfg: Config, s: State, id: ClientID, ip: IPv4)
    requires id in s.pool
    ensures Persisted(Reassigned(cfg, s, id, ip))
  {
    hide Entries;
  }

  /** Taking away a client's session, lease and route disturbs no other client. */
  lemma ForgetConsistent(cfg: Config, s: State, t: State, id: ClientID, ip: IPv4)
    requires Consistent(cfg, s) && ip == if id in s.pool then s.pool[id] else UNSPECIFIED
    requires t.pool == s.pool - {id} && t.routes == s.routes - {ip} && t.sessions == s.sessions - {id}
    ensures Consistent(cfg, t)
  {
    forall c | c in t.sessions ensures SessionFollowsLease(t, c) {
      assert SessionFollowsLease(s, c);
    }
  }

  lemma DeleteConsistent(cfg: Config, s: State, id: ClientID)
    requires Consistent(cfg, s) && Persisted(s)
    ensures Consistent(cfg, DeleteDevice(s, id)) && Persisted(DeleteDevice(s, id))
    ensures Consistent(cfg, DeleteClient(s, id)) && Persisted(DeleteClient(s, id))
  {
    hide Entries;
    if id in s.pool {
      assert s.sessions - {id} == DeleteDevice(s, id).sessions;
      ForgetConsistent(cfg, s, DeleteDevice(s, id), id, s.pool[id]);
    }
    if id in s.sessions {
      assert SessionFollowsLease(s, id);
      ForgetConsistent(cfg, s, DeleteClient(s, id), id, s.sessions[id].virtualIP);
    }
  }

  lemma RestartConsistent(cfg: Config, s: State)
    requires Consistent(cfg, s) && Persisted(s)
    ensures Consistent(cfg, Boot(s.saved)) && Persisted(Boot(s.saved)) && Boot(s.saved).pool == s.pool
  {}

  /** Any step keeps the three maps consistent if and only if it is legal; the file always follows the pool. */
  lemma StepConsistent(cfg: Config, s: State, step: Step, now: Time)
    requires Consistent(cfg, s) && Persisted(s)
    ensures Persisted(Apply(cfg, s, step, now).state)
    ensures Consistent(cfg, Apply(cfg, s, step, now).state) <==> Legal(cfg, s, step)
  {
    hide Consistent, Persisted, OnPacket, SendToClient, Notify, Reassigned, DeleteDevice, DeleteClient, Cleanup, Boot,
         Legal;
    match step
    case Receive(data, from, io) => PacketConsistent(cfg, s, data, from, now, io);
    case ReadTun(payload, io) =>
      if InnerIPv4(payload) && Destination(payload) in s.routes {
        TunConsistent(cfg, s, payload, io);
      }
      NotHeartbeat(cfg, s, step);
    case Tick => CleanupPersists(cfg, s, now); CleanupConsistent(cfg, s, now); NotHeartbeat(cfg, s, step);
    case Update(id, newIP, io) => UpdateConsistent(cfg, s, id, newIP, io); NotHeartbeat(cfg, s, step);
    case RemoveDevice(id) => DeleteConsistent(cfg, s, id); NotHeartbeat(cfg, s, step);
    case RemoveClient(id) => DeleteConsistent(cfg, s, id); NotHeartbeat(cfg, s, step);
    case Restart => RestartConsistent(cfg, s); NotHeartbeat(cfg, s, step);
  }

  lemma NotHeartbeat(cfg: Config, s: State, step: Step)
    requires !step.Receive?
    ensures Legal(cfg, s, step)
  {}

  lemma CleanupPersists(cfg: Config, s: State, now: Time)
    requires Persisted(s)
    ensures Persisted(Cleanup(cfg, s, now))
  {}

  lemma TunConsistent(cfg: Config, s: State, payload: Bytes, io: Io)
    requires Consistent(cfg, s) && Persisted(s) && InnerIPv4(payload) && Destination(payload) in s.routes
    ensures Consistent(cfg, OnTun(s, payload, io).state) && Persisted(OnTun(s, payload, io).state)
  {
    hide SendToClient, Entries;
    var packet := HeaderBytes(Header(VERSION1, TYPE_DATA, false, 0, s.seqNo)) + payload;
    var s1 := s.(seqNo := (s.seqNo + 1) % TWO32);
    SendSameMaps(s1, s.routes[Destination(payload)], packet, io);
    SameMapsSameInvariant(cfg, s, OnTun(s, payload, io).state);
  }

  lemma UpdateConsistent(cfg: Config, s: State, id: ClientID, newIP: Option<IPv4>, io: Io)
    requires Consistent(cfg, s) && Persisted(s)
    ensures Consistent(cfg, UpdateDeviceIP(cfg, s, id, newIP, io).state)
    ensures Persisted(UpdateDeviceIP(cfg, s, id, newIP, io).state)
  {
    hide Consistent, Persisted, Notify, Reassigned;
    if MayUpdate(cfg, s, id, newIP) {
      var s1 := Reassigned(cfg, s, id, newIP.value);
      var order := if id in s.sessions then io.order else [];
      ReassignConsistent(cfg, s, id, newIP.value);
      ReassignPersists(cfg, s, id, newIP.value);
      NotifySameMaps(cfg, s1, order, newIP.value);
      SameMapsSameInvariant(cfg, s1, Notify(cfg, s1, order, newIP.value).state);
    }
  }

  // ---- Whole runs ----

  datatype Event = Event(step: Step, now: Time)

  function Run(cfg: Config, s: State, events: seq<Event>): State {
    if events == [] then s
    else
      var n := |events| - 1;
      Apply(cfg, Run(cfg, s, events[..n]), events[n].step, events[n].now).state
  }

  lemma RunExtends(cfg: Config, s: State, events: seq<Event>, i: nat)
    requires i < |events|
    ensures Run(cfg, s, events[..i + 1]) == Apply(cfg, Run(cfg, s, events[..i]), events[i].step, events[i].now).state
  {
    hide Apply;
    assert events[..i + 1][..i] == events[..i];
  }

  ghost predicate LegalRun(cfg: Config, s: State, events: seq<Event>, n: nat)
    requires n <= |events|
  {
    forall i :: 0 <= i < n ==> Legal(cfg, Run(cfg, s, events[..i]), events[i].step)
  }

  ghost predicate ConsistentRun(cfg: Config, s: State, events: seq<Event>, n: nat)
    requires n <= |events|
  {
    forall i :: 0 <= i <= n ==> Consistent(cfg, Run(cfg, s, events[..i]))
  }

  lemma {:induction false} RunConsistentUpTo(cfg: Config, s: State, events: seq<Event>, n: nat)
    requires n <= |events| && Consistent(cfg, s) && Persisted(s)
    ensures LegalRun(cfg, s, events, n) <==> ConsistentRun(cfg, s, events, n)
    ensures LegalRun(cfg, s, events, n) ==> Persisted(Run(cfg, s, events[..n]))
  {
    hide Consistent, Persisted, Legal, Apply, Run;
    if n == 0 {
      assert events[..0] == [];
      EmptyRun(cfg, s);
    } else {
      RunConsistentUpTo(cfg, s, events, n - 1);
      RunExtends(cfg, s, events, n - 1);
      if LegalRun(cfg, s, events, n - 1) {
        var before := Run(cfg, s, events[..n - 1]);
        assert ConsistentRun(cfg, s, events, n - 1);
        StepConsistent(cfg, before, events[n - 1].step, events[n - 1].now);
      }
      assert ConsistentRun(cfg, s, events, n) ==> ConsistentRun(cfg, s, events, n - 1);
      assert LegalRun(cfg, s, events, n) ==> LegalRun(cfg, s, events, n - 1);
    }
  }

  lemma EmptyRun(cfg: Config, s: State)
    ensures Run(cfg, s, []) == s
  {}

  /** A pool file a server may start from. */
  ghost predicate GoodFile(cfg: Config, saved: map<ClientID, Lease>) {
    && (forall c, d :: c in saved && d in saved && saved[c].ip == saved[d].ip ==> c == d)
    && forall c :: c in saved ==> saved[c].ip != cfg.serverIP
  }

  lemma BootConsistent(cfg: Config, saved: map<ClientID, Lease>)
    ensures Consistent(cfg, Boot(saved)) <==> GoodFile(cfg, saved)
    ensures Persisted(Boot(saved))
  {
    assert forall c :: c in saved ==> LoadedPool(saved)[c] == saved[c].ip;
  }

  /**
   * Over any run from a good pool file, the three maps are consistent in every state if and only if
   * every session-opening heartbeat claimed an address it may claim.
   */
  lemma RunConsistent(cfg: Config, saved: map<ClientID, Lease>, events: seq<Event>)
    requires GoodFile(cfg, saved)
    ensures LegalRun(cfg, Boot(saved), events, |events|) <==> ConsistentRun(cfg, Boot(saved), events, |events|)
  {
    BootConsistent(cfg, saved);
    RunConsistentUpTo(cfg, Boot(saved), events, |events|);
  }
}
