/** Properties of every reachable server state, whatever packets arrive: timestamps, interface names, byte counts. */
module ServerHealth {
  import opened Basics
  import opened Packet
  import opened Dedup
  import opened Checksum
  import opened ServerModel
  import opened ServerInvariants
  import opened Client
  import opened Registration

  // ---- Sums over maps ----

  ghost function Sum<K(!new)>(m: map<K, nat>): nat {
    if m == map[] then 0
    else
      var k :| k in m;
      m[k] + Sum(m - {k})
  }

  /** The sum does not depend on the order of the keys. */
  lemma {:induction false} SumRemove<K(!new)>(m: map<K, nat>, k: K)
    requires k in m
    ensures Sum(m) == m[k] + Sum(m - {k})
    decreases m.Keys
  {
    var j :| j in m && Sum(m) == m[j] + Sum(m - {j});
    if j != k {
      SumRemove(m - {j}, k);
      SumRemove(m - {k}, j);
      assert m - {j} - {k} == m - {k} - {j};
    }
  }

  lemma SumUpdate<K(!new)>(m: map<K, nat>, k: K, v: nat)
    ensures Sum(m[k := v]) == Sum(m) + v - if k in m then m[k] else 0
  {
    SumRemove(m[k := v], k);
    if k in m {
      SumRemove(m, k);
      assert m[k := v] - {k} == m - {k};
    } else {
      assert m[k := v] - {k} == m;
    }
  }

  lemma {:induction false} SumSubset<K(!new)>(part: map<K, nat>, m: map<K, nat>)
    requires part.Keys <= m.Keys && forall k :: k in part ==> part[k] == m[k]
    ensures Sum(part) <= Sum(m)
    decreases part.Keys
  {
    if part != map[] {
      var k :| k in part;
      SumRemove(part, k);
      SumRemove(m, k);
      SumSubset(part - {k}, m - {k});
    }
  }

  // ---- One session ----

  ghost function AddrRx(addrs: map<UdpAddr, AddrInfo>): map<UdpAddr, nat> { map a | a in addrs :: addrs[a].rxBytes }

  /** No two addresses of a session carry the same interface name. */
  ghost predicate NicUnique(addrs: map<UdpAddr, AddrInfo>) {
    forall a, b :: a in addrs && b in addrs && a != b && addrs[a].nic.name == addrs[b].nic.name ==>
      addrs[a].nic.name == []
  }

  ghost predicate Healthy(sess: Session, now: Time) {
    && sess.lastSeen <= now
    && (forall a :: a in sess.addrs ==> sess.addrs[a].lastSeen <= sess.lastSeen)
    && NicUnique(sess.addrs)
    && Sum(AddrRx(sess.addrs)) <= sess.rxBytes
  }

  lemma HeardFromNicUnique(sess: Session, from: UdpAddr, paths: seq<PathRTT>, now: Time)
    requires NicUnique(sess.addrs)
    ensures NicUnique(HeardFrom(sess, from, paths, now).addrs)
  {}

  lemma HeardFromRx(sess: Session, from: UdpAddr, paths: seq<PathRTT>, now: Time)
    ensures Sum(AddrRx(HeardFrom(sess, from, paths, now).addrs)) <= Sum(AddrRx(sess.addrs))
  {
    var known := if from in sess.addrs then sess.addrs[from] else AddrInfo(now, 0, NO_NIC);
    var stale := if paths == [] then {} else StaleAddrs(sess.addrs, from, paths[0].name);
    var rx := AddrRx(sess.addrs - stale);
    assert sess.addrs - {} == sess.addrs;
    SumSubset(rx, AddrRx(sess.addrs));
    SumUpdate(rx, from, known.rxBytes);
    assert AddrRx(HeardFrom(sess, from, paths, now).addrs) == rx[from := known.rxBytes];
  }

  lemma HeardFromHealthy(sess: Session, from: UdpAddr, paths: seq<PathRTT>, now: Time)
    requires Healthy(sess, now) && sess.lastSeen == now
    ensures Healthy(HeardFrom(sess, from, paths, now), now)
  {
    hide NicUnique, AddrRx, Sum;
    HeardFromNicUnique(sess, from, paths, now);
    HeardFromRx(sess, from, paths, now);
  }

  lemma DataFromHealthy(sess: Session, from: UdpAddr, now: Time, t0: Time)
    requires Healthy(sess, t0) && t0 <= now
    ensures Healthy(DataFrom(sess, from, now), now)
  {
    assert AddrRx(DataFrom(sess, from, now).addrs) == AddrRx(sess.addrs);
  }

  lemma RefreshHealthy(sess: Session, hb: Heartbeat, now: Time, t0: Time)
    requires Healthy(sess, t0) && t0 <= now
    ensures Healthy(Refresh(sess, hb, now), now)
  {}

  lemma CountedRxHealthy(sess: Session, from: UdpAddr, n: nat, now: Time)
    requires Healthy(sess, now)
    ensures Healthy(CountedRx(sess, from, n), now)
  {
    if from in sess.addrs {
      var v := sess.addrs[from].rxBytes + n;
      SumUpdate(AddrRx(sess.addrs), from, v);
      assert AddrRx(CountedRx(sess, from, n).addrs) == AddrRx(sess.addrs)[from := v];
    }
  }

  lemma FreshHealthy(cfg: Config, sess: Session, now: Time)
    requires Healthy(sess, now)
    ensures Healthy(sess.(addrs := FreshAddrs(cfg, sess, now)), now)
  {
    SumSubset(AddrRx(FreshAddrs(cfg, sess, now)), AddrRx(sess.addrs));
  }

  // ---- All sessions ----

  ghost function Rx(sessions: map<ClientID, Session>): map<ClientID, nat> {
    map c | c in sessions :: sessions[c].rxBytes
  }

  ghost function Tx(sessions: map<ClientID, Session>): map<ClientID, nat> {
    map c | c in sessions :: sessions[c].txBytes
  }

  /** Every session is healthy and no byte is counted that the server did not see. */
  ghost predicate AllHealthy(s: State, now: Time) {
    && (forall c :: c in s.sessions ==> Healthy(s.sessions[c], now))
    && Sum(Rx(s.sessions)) <= s.totalRx && Sum(Tx(s.sessions)) <= s.totalTx
  }

  lemma OneSessionChanged(s: State, t: State, id: ClientID, sess: Session, now: Time)
    requires AllHealthy(s, now) && Healthy(sess, now) && t.sessions == s.sessions[id := sess]
    requires t.totalRx - s.totalRx >= sess.rxBytes - if id in s.sessions then s.sessions[id].rxBytes else 0
    requires t.totalTx - s.totalTx >= sess.txBytes - if id in s.sessions then s.sessions[id].txBytes else 0
    ensures AllHealthy(t, now)
  {
    hide Healthy;
    SumUpdate(Rx(s.sessions), id, sess.rxBytes);
    SumUpdate(Tx(s.sessions), id, sess.txBytes);
    assert Rx(t.sessions) == Rx(s.sessions)[id := sess.rxBytes];
    assert Tx(t.sessions) == Tx(s.sessions)[id := sess.txBytes];
  }

  lemma FewerSessions(s: State, t: State, now: Time)
    requires AllHealthy(s, now) && t.sessions.Keys <= s.sessions.Keys
    requires t.totalRx == s.totalRx && t.totalTx == s.totalTx
    requires forall c :: c in t.sessions ==>
      && Healthy(t.sessions[c], now)
      && t.sessions[c].rxBytes == s.sessions[c].rxBytes && t.sessions[c].txBytes == s.sessions[c].txBytes
    ensures AllHealthy(t, now)
  {
    hide Healthy;
    SumSubset(Rx(t.sessions), Rx(s.sessions));
    SumSubset(Tx(t.sessions), Tx(s.sessions));
  }

  lemma TimePasses(s: State, t0: Time, now: Time)
    requires AllHealthy(s, t0) && t0 <= now
    ensures AllHealthy(s, now)
  {}

  // ---- Every step ----

  lemma CountRxHealthy(s: State, id: ClientID, from: UdpAddr, n: nat, now: Time)
    requires AllHealthy(s, now)
    ensures AllHealthy(CountRx(s, id, from, n), now)
  {
    hide Healthy, Sum;
    if id in s.sessions {
      CountedRxHealthy(s.sessions[id], from, n, now);
      OneSessionChanged(s, CountRx(s, id, from, n), id, CountedRx(s.sessions[id], from, n), now);
    }
  }

  lemma RegisterKeepsOthers(cfg: Config, s: State, id: ClientID, hb: Heartbeat, now: Time)
    ensures var t := Register(cfg, s, id, hb, now);
            && t.totalRx == s.totalRx && t.totalTx == s.totalTx && id in t.sessions
            && t.sessions == s.sessions[id := t.sessions[id]]
            && t.sessions[id].addrs == map[] && t.sessions[id].lastSeen == now
            && t.sessions[id].rxBytes == t.sessions[id].txBytes == 0
  {
    hide Register, Assigned;
    RegisterShape(cfg, s, id, hb, now);
  }

  lemma AdmitHealthy(cfg: Config, s: State, id: ClientID, hb: Heartbeat, from: UdpAddr, now: Time)
    requires AllHealthy(s, now)
    ensures AllHealthy(Admit(cfg, s, id, hb, from, now), now)
  {
    hide Healthy, AllHealthy, Register, HeardFrom, Sum;
    var sess: Session;
    if id in s.sessions {
      sess := Refresh(s.sessions[id], hb, now);
      SessionsHealthy(s, id, now);
      RefreshHealthy(s.sessions[id], hb, now, now);
    } else {
      RegisterKeepsOthers(cfg, s, id, hb, now);
      sess := Register(cfg, s, id, hb, now).sessions[id];
      EmptyHealthy(sess, now);
    }
    HeardFromHealthy(sess, from, hb.pathRTTs, now);
    HeardFromCounters(sess, from, hb.pathRTTs, now);
    OneSessionChanged(s, Admit(cfg, s, id, hb, from, now), id, HeardFrom(sess, from, hb.pathRTTs, now), now);
  }

  lemma SessionsHealthy(s: State, id: ClientID, now: Time)
    requires AllHealthy(s, now) && id in s.sessions
    ensures Healthy(s.sessions[id], now)
  {}

  lemma EmptyHealthy(sess: Session, now: Time)
    requires sess.addrs == map[] && sess.lastSeen == now
    ensures Healthy(sess, now)
  {
    assert AddrRx(sess.addrs) == map[];
  }

  lemma HeardFromCounters(sess: Session, from: UdpAddr, paths: seq<PathRTT>, now: Time)
    ensures HeardFrom(sess, from, paths, now).rxBytes == sess.rxBytes
    ensures HeardFrom(sess, from, paths, now).txBytes == sess.txBytes
  {}

  /** Health only looks at sessions and byte totals. */
  lemma HealthDependsOn(s: State, t: State, now: Time)
    requires AllHealthy(s, now) && t.sessions == s.sessions && t.totalRx == s.totalRx && t.totalTx == s.totalTx
    ensures AllHealthy(t, now)
  {}

  lemma AcknowledgeHealthy(cfg: Config, s: State, to: UdpAddr, ip: IPv4, prefixLen: Byte, status: Byte, now: Time)
    requires AllHealthy(s, now)
    ensures AllHealthy(Acknowledge(cfg, s, to, ip, prefixLen, status).state, now)
  {}

  lemma HeartbeatHealthy(cfg: Config, s: State, id: ClientID, payload: Bytes, from: UdpAddr, now: Time)
    requires AllHealthy(s, now)
    ensures AllHealthy(OnHeartbeat(cfg, s, id, payload, from, now).state, now)
  {
    hide AllHealthy, Admit, Acknowledge, ParseHeartbeat;
    match ParseHeartbeat(payload)
    case Failure(_) =>
    case Success(hb) =>
      AcknowledgeHealthy(cfg, s, from, UNSPECIFIED, 0, ACK_TEAM_KEY_MISMATCH, now);
      if id in s.sessions {
        var was := s.sessions[id];
        AcknowledgeHealthy(cfg, s, from, was.virtualIP, was.prefixLen, ACK_CLIENT_ID_CONFLICT, now);
      }
      var s1 := Admit(cfg, s, id, hb, from, now);
      AdmitHealthy(cfg, s, id, hb, from, now);
      AcknowledgeHealthy(cfg, s1, from, s1.sessions[id].virtualIP, s1.sessions[id].prefixLen, ACK_OK, now);
  }

  lemma SendHealthy(s: State, id: ClientID, packet: Bytes, io: Io, now: Time)
    requires AllHealthy(s, now)
    ensures AllHealthy(SendToClient(s, id, packet, io).state, now)
  {
    hide Written, Fanout, Targets, Sum;
    if id in s.sessions && s.sessions[id].addrs != map[] {
      var t := SendToClient(s, id, packet, io).state;
      OneSessionChanged(s, t, id, t.sessions[id], now);
    }
  }

  lemma DataHealthy(cfg: Config, s: State, h: Header, payload: Bytes, packet: Bytes, from: UdpAddr, now: Time, io: Io)
    requires AllHealthy(s, now)
    ensures AllHealthy(OnData(cfg, s, h, payload, packet, from, now, io).state, now)
  {
    hide AllHealthy, Healthy, Observe, SendToClient, Source, Destination;
    var v := Observe(Lookup(s.dedup, h.clientID), h.seqNo, cfg.window);
    var s1 := s.(dedup := s.dedup[h.clientID := v.window]);
    HealthDependsOn(s, s1, now);
    if !v.duplicate && Acceptable(s1, h.clientID, payload) {
      var sess := DataFrom(s1.sessions[h.clientID], from, now);
      var s2 := s1.(sessions := s1.sessions[h.clientID := sess]);
      SessionsHealthy(s1, h.clientID, now);
      DataFromHealthy(s1.sessions[h.clientID], from, now, now);
      OneSessionChanged(s1, s2, h.clientID, sess, now);
      if Destination(payload) in s2.routes { SendHealthy(s2, s2.routes[Destination(payload)], packet, io, now); }
    }
  }

  lemma PacketHealthy(cfg: Config, s: State, data: Bytes, from: UdpAddr, now: Time, io: Io)
    requires AllHealthy(s, now)
    ensures AllHealthy(OnPacket(cfg, s, data, from, now, io).state, now)
  {
    hide AllHealthy, OnHeartbeat, OnData, DecodeHeader, CountRx;
    if DecodeHeader(data).Success? {
      var h := DecodeHeader(data).value;
      var s1 := CountRx(s, h.clientID, from, |data|);
      CountRxHealthy(s, h.clientID, from, |data|, now);
      HeartbeatHealthy(cfg, s1, h.clientID, data[HEADER_SIZE..], from, now);
      DataHealthy(cfg, s1, h, data[HEADER_SIZE..], data, from, now, io);
    }
  }

  lemma TunHealthy(s: State, payload: Bytes, io: Io, now: Time)
    requires AllHealthy(s, now)
    ensures AllHealthy(OnTun(s, payload, io).state, now)
  {
    hide AllHealthy, SendToClient, Destination;
    var s1 := s.(seqNo := (s.seqNo + 1) % TWO32);
    HealthDependsOn(s, s1, now);
    if InnerIPv4(payload) && Destination(payload) in s.routes {
      var packet := HeaderBytes(Header(VERSION1, TYPE_DATA, false, 0, s.seqNo)) + payload;
      SendHealthy(s1, s.routes[Destination(payload)], packet, io, now);
    }
  }

  lemma CleanupHealthy(cfg: Config, s: State, now: Time)
    requires AllHealthy(s, now)
    ensures AllHealthy(Cleanup(cfg, s, now), now)
  {
    hide Healthy, Sum, FreshAddrs, Expired;
    var t := Cleanup(cfg, s, now);
    forall c | c in t.sessions ensures Healthy(t.sessions[c], now) {
      FreshHealthy(cfg, s.sessions[c], now);
    }
    FewerSessions(s, t, now);
  }

  lemma NotifyHealthy(cfg: Config, s: State, addrs: seq<UdpAddr>, ip: IPv4, now: Time)
    requires AllHealthy(s, now)
    ensures AllHealthy(Notify(cfg, s, addrs, ip).state, now)
  {
    hide AllHealthy;
    if addrs != [] {
      NotifyHealthy(cfg, s, addrs[..|addrs| - 1], ip, now);
      HealthDependsOn(Notify(cfg, s, addrs[..|addrs| - 1], ip).state, Notify(cfg, s, addrs, ip).state, now);
    }
  }

  lemma AdminHealthy(cfg: Config, s: State, id: ClientID, newIP: Option<IPv4>, io: Io, now: Time)
    requires AllHealthy(s, now)
    ensures AllHealthy(UpdateDeviceIP(cfg, s, id, newIP, io).state, now)
    ensures AllHealthy(DeleteDevice(s, id), now) && AllHealthy(DeleteClient(s, id), now)
  {
    hide Healthy, Sum, Notify, Entries, Reassigned;
    FewerSessions(s, DeleteDevice(s, id), now);
    FewerSessions(s, DeleteClient(s, id), now);
    if MayUpdate(cfg, s, id, newIP) {
      ReassignedHealthy(cfg, s, id, newIP.value, now);
      var order := if id in s.sessions then io.order else [];
      NotifyHealthy(cfg, Reassigned(cfg, s, id, newIP.value), order, newIP.value, now);
    }
  }

  lemma ReassignedHealthy(cfg: Config, s: State, id: ClientID, ip: IPv4, now: Time)
    requires AllHealthy(s, now) && id in s.pool
    ensures AllHealthy(Reassigned(cfg, s, id, ip), now)
  {
    hide Sum, Entries;
    FewerSessions(s, Reassigned(cfg, s, id, ip), now);
  }

  /**
   * Whatever steps are taken, as long as the clock does not run backwards: no address was seen after its
   * session, no two addresses of a session share an interface name, and bytes are conserved from
   * addresses to sessions to the totals.
   */
  lemma StepHealthy(cfg: Config, s: State, step: Step, t0: Time, now: Time)
    requires AllHealthy(s, t0) && t0 <= now
    ensures AllHealthy(Apply(cfg, s, step, now).state, now)
  {
    hide AllHealthy, OnPacket, OnTun, UpdateDeviceIP, DeleteDevice, DeleteClient, Cleanup, Boot;
    TimePasses(s, t0, now);
    match step
    case Receive(data, from, io) => PacketHealthy(cfg, s, data, from, now, io);
    case ReadTun(payload, io) => TunHealthy(s, payload, io, now);
    case Tick => CleanupHealthy(cfg, s, now);
    case Update(id, newIP, io) => AdminHealthy(cfg, s, id, newIP, io, now);
    case RemoveDevice(id) => AdminHealthy(cfg, s, id, None, Io([], {}), now);
    case RemoveClient(id) => AdminHealthy(cfg, s, id, None, Io([], {}), now);
    case Restart => BootHealthy(s.saved, now);
  }

  lemma BootHealthy(saved: map<ClientID, Lease>, now: Time)
    ensures AllHealthy(Boot(saved), now)
  {
    assert Rx(map[]) == map[] && Tx(map[]) == map[];
  }

  lemma {:induction false} RunHealthy(cfg: Config, saved: map<ClientID, Lease>, events: seq<Event>)
    requires forall i, j :: 0 <= i < j < |events| ==> events[i].now <= events[j].now
    ensures events != [] ==> AllHealthy(Run(cfg, Boot(saved), events), events[|events| - 1].now)
  {
    hide AllHealthy, Apply, Boot;
    if events != [] {
      var n := |events| - 1;
      var before, t0 := Run(cfg, Boot(saved), events[..n]), if n == 0 then events[n].now else events[n - 1].now;
      BootHealthy(saved, t0);
      RunHealthy(cfg, saved, events[..n]);
      StepHealthy(cfg, before, events[n].step, t0, events[n].now);
    }
  }

  // ---- Cleanup is exact ----

  /** An expired session leaves neither route nor window behind. */
  lemma ExpiredIsForgotten(cfg: Config, s: State, now: Time)
    ensures var t := Cleanup(cfg, s, now);
            forall c :: c in s.sessions && c !in t.sessions ==> s.sessions[c].virtualIP !in t.routes && c !in t.dedup
  {
    hide Expired, FreshAddrs;
  }

  /**
   * The sessions left by cleanup are exactly those seen within clientTimeout, their addresses those within
   * addrTimeout.
   */
  ghost predicate CleanupExact(cfg: Config, s: State, now: Time) {
    var t := Cleanup(cfg, s, now);
    && (forall c :: c in t.sessions <==> c in s.sessions && now - s.sessions[c].lastSeen <= cfg.clientTimeout)
    && (forall c :: c in t.sessions ==> forall a ::
          a in t.sessions[c].addrs <==>
                a in s.sessions[c].addrs && now - s.sessions[c].addrs[a].lastSeen <= cfg.addrTimeout)
  }

  lemma CleanupIsExact(cfg: Config, s: State, now: Time)
    requires AllHealthy(s, now) && (cfg.clientTimeout >= cfg.addrTimeout || cfg.addrTimeout < 0)
    ensures CleanupExact(cfg, s, now)
  {
    hide Sum;
    forall c | c in s.sessions
      ensures Expired(cfg, s.sessions[c], now) <==> now - s.sessions[c].lastSeen > cfg.clientTimeout
    {
      var sess := s.sessions[c];
      assert Healthy(sess, now);
      if now - sess.lastSeen > cfg.clientTimeout {
        assert forall a :: a in sess.addrs ==> sess.addrs[a].lastSeen <= sess.lastSeen;
        assert FreshAddrs(cfg, sess, now).Keys == {};
      }
    }
  }

  // ---- Exactly when, over all runs ----

  /** The clock does not run backwards, and now is not before the last event. */
  ghost predicate Monotone(events: seq<Event>, now: Time) {
    && (forall i, j :: 0 <= i < j < |events| ==> events[i].now <= events[j].now)
    && forall i :: 0 <= i < |events| ==> events[i].now <= now
  }

  lemma ReachableIsHealthy(cfg: Config, saved: map<ClientID, Lease>, events: seq<Event>, now: Time)
    requires Monotone(events, now)
    ensures AllHealthy(Run(cfg, Boot(saved), events), now)
  {
    hide AllHealthy, Boot, Apply;
    if events == [] {
      BootHealthy(saved, now);
    } else {
      RunHealthy(cfg, saved, events);
      TimePasses(Run(cfg, Boot(saved), events), events[|events| - 1].now, now);
    }
  }

  const WITNESS_ADDR := UdpAddr(0, 0)

  /** A run of one event: client 1 sends its first heartbeat at time 0. */
  function WitnessRun(cfg: Config): seq<Event> {
    [Event(Receive(HeartbeatPacket(INITIAL, 1, Profile(0, 0, cfg.teamKeyHash, [])), WITNESS_ADDR, Io([], {})), 0)]
  }

  lemma OneHeartbeat(cfg: Config, s: State)
    requires s.sessions == map[]
    ensures var t := Apply(cfg, s, WitnessRun(cfg)[0].step, 0).state;
            && 1 in t.sessions && WITNESS_ADDR in t.sessions[1].addrs
            && t.sessions[1].lastSeen == t.sessions[1].addrs[WITNESS_ADDR].lastSeen == 0
  {
    hide HeartbeatPacket, DecodeHeader, ParseHeartbeat, OnHeartbeat, CountedRx;
    var p := Profile(0, 0, cfg.teamKeyHash, []);
    var data := HeartbeatPacket(INITIAL, 1, p);
    HeartbeatCarriesAddress(INITIAL, 1, p, []);
    assert data + [] == data;
    HeartbeatAnswer(cfg, CountRx(s, 1, WITNESS_ADDR, |data|), 1, data[HEADER_SIZE..], WITNESS_ADDR, 0);
  }

  lemma WitnessReached(cfg: Config)
    ensures var s := Run(cfg, Boot(map[]), WitnessRun(cfg));
            && 1 in s.sessions && WITNESS_ADDR in s.sessions[1].addrs
            && s.sessions[1].lastSeen == s.sessions[1].addrs[WITNESS_ADDR].lastSeen == 0
  {
    hide Apply, WitnessRun;
    var events := WitnessRun(cfg);
    assert |events| == 1 && events[0].now == 0 by { WitnessIsShort(cfg); }
    assert events[..0] == [];
    RunExtends(cfg, Boot(map[]), events, 0);
    assert events[..1] == events;
    OneHeartbeat(cfg, Boot(map[]));
  }

  lemma WitnessMonotone(cfg: Config)
    requires 0 <= cfg.addrTimeout
    ensures Monotone(WitnessRun(cfg), cfg.addrTimeout)
  {}

  lemma WitnessIsShort(cfg: Config)
    ensures |WitnessRun(cfg)| == 1 && WitnessRun(cfg)[0].now == 0
  {}

  /** With a shorter client timeout a session outlives it through its addresses. */
  lemma CleanupNotExact(cfg: Config, s: State)
    requires 0 <= cfg.addrTimeout && cfg.clientTimeout < cfg.addrTimeout
    requires 1 in s.sessions && WITNESS_ADDR in s.sessions[1].addrs
    requires s.sessions[1].lastSeen == s.sessions[1].addrs[WITNESS_ADDR].lastSeen == 0
    ensures !CleanupExact(cfg, s, cfg.addrTimeout)
  {
    assert WITNESS_ADDR in FreshAddrs(cfg, s.sessions[1], cfg.addrTimeout);
    assert 1 in Cleanup(cfg, s, cfg.addrTimeout).sessions;
  }

  /**
   * Cleanup is exact in every state of every run, from any pool file, if and only if addresses do not outlive
   * sessions.
   */
  lemma CleanupExactIff(cfg: Config)
    ensures (forall saved, events, now :: Monotone(events, now) ==>
               CleanupExact(cfg, Run(cfg, Boot(saved), events), now))
            <==> cfg.clientTimeout >= cfg.addrTimeout || cfg.addrTimeout < 0
  {
    hide AllHealthy, CleanupExact, Boot, WitnessRun, Run, Monotone;
    if cfg.clientTimeout >= cfg.addrTimeout || cfg.addrTimeout < 0 {
      forall saved, events, now | Monotone(events, now) ensures CleanupExact(cfg, Run(cfg, Boot(saved), events), now) {
        ReachableIsHealthy(cfg, saved, events, now);
        CleanupIsExact(cfg, Run(cfg, Boot(saved), events), now);
      }
    } else {
      WitnessReached(cfg);
      WitnessIsShort(cfg);
      CleanupNotExact(cfg, Run(cfg, Boot(map[]), WitnessRun(cfg)));
      WitnessMonotone(cfg);
    }
  }
}
