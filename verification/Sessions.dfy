/** What packets and cleanup do to the sessions, in full: which addresses, settings and times survive. */
module Sessions {
  import opened Basics
  import opened Packet
  import opened Dedup
  import opened Allocation
  import opened Checksum
  import opened ServerModel
  import opened ServerInvariants
  import opened Registration

  // ---- Heartbeats ----

  /** The interface a heartbeat came through, or what was known before if it says nothing. */
  function Nic(hb: Heartbeat, known: PathRTT): PathRTT { if hb.pathRTTs == [] then known else hb.pathRTTs[0] }

  /** The heartbeat came through this interface: another address recorded for it is out of date. */
  predicate MovedHere(hb: Heartbeat, nic: PathRTT) {
    hb.pathRTTs != [] && hb.pathRTTs[0].name != [] && nic.name == hb.pathRTTs[0].name
  }

  /**
   * A session after an accepted heartbeat from this address: every other address stays, with its record, if and only
   * if it is not one of the same interface; mode, port, name and time are renewed, the rest is kept.
   */
  ghost predicate Renewed(before: Session, after: Session, hb: Heartbeat, from: UdpAddr, n: nat, now: Time) {
    && (forall a :: a != from ==> (a in after.addrs <==> a in before.addrs && !MovedHere(hb, before.addrs[a].nic)))
    && (forall a :: a in after.addrs && a != from ==> after.addrs[a] == before.addrs[a])
    && from in after.addrs && after.addrs[from] ==
         (if from in before.addrs then
            AddrInfo(now, before.addrs[from].rxBytes + n, Nic(hb, before.addrs[from].nic))
          else AddrInfo(now, 0, Nic(hb, NO_NIC)))
    && after.virtualIP == before.virtualIP && after.prefixLen == before.prefixLen
    && after.sendMode == hb.fixed.sendMode && after.replyPort == hb.fixed.replyPort
    && after.deviceName == (if hb.deviceName == [] then before.deviceName else hb.deviceName)
    && after.lastSeen == now && after.lastDataAddr == before.lastDataAddr
    && after.rxBytes == before.rxBytes + n && after.txBytes == before.txBytes
  }

  lemma AdmitRenews(cfg: Config, s: State, id: ClientID, hb: Heartbeat, from: UdpAddr, n: nat, now: Time)
    requires id in s.sessions
    ensures var s1 := CountRx(s, id, from, n);
            Renewed(s.sessions[id], Admit(cfg, s1, id, hb, from, now).sessions[id], hb, from, n, now)
  {}

  lemma AdmitLeavesOthers(cfg: Config, s: State, id: ClientID, hb: Heartbeat, from: UdpAddr, now: Time)
    ensures var t := Admit(cfg, s, id, hb, from, now);
            && t.dedup == s.dedup && t.totalRx == s.totalRx && t.totalTx == s.totalTx
            && t.sessions.Keys == s.sessions.Keys + {id}
            && forall c :: c in s.sessions && c != id ==> t.sessions[c] == s.sessions[c]
  {
    hide Register, Assigned, HeardFrom, Refresh;
    if id !in s.sessions { RegisterShape(cfg, s, id, hb, now); }
  }

  lemma AcceptedIsAdmitted(cfg: Config, s: State, data: Bytes, from: UdpAddr, now: Time, io: Io, id: ClientID,
        hb: Heartbeat)
    requires HeartbeatIn(data) == Some((id, hb)) && Accepted(cfg, s, id, hb)
    ensures var s1, next := CountRx(s, id, from, |data|), OnPacket(cfg, s, data, from, now, io).state;
            next == Admit(cfg, s1, id, hb, from, now).(seqNo := next.seqNo)
  {
    hide DecodeHeader, ParseHeartbeat, Admit, AckPacket;
  }

  /** An accepted heartbeat of a known client renews its session and touches no other. */
  lemma HeartbeatRenewsSession(cfg: Config, s: State, data: Bytes, from: UdpAddr, now: Time, io: Io, id: ClientID,
        hb: Heartbeat)
    requires HeartbeatIn(data) == Some((id, hb)) && Accepted(cfg, s, id, hb) && id in s.sessions
    ensures var t := OnPacket(cfg, s, data, from, now, io).state;
            && id in t.sessions && Renewed(s.sessions[id], t.sessions[id], hb, from, |data|, now)
            && t.sessions.Keys == s.sessions.Keys
            && forall c :: c in s.sessions && c != id ==> t.sessions[c] == s.sessions[c]
  {
    hide HeartbeatIn, Accepted, Admit, CountRx, OnPacket, Renewed;
    AcceptedIsAdmitted(cfg, s, data, from, now, io, id, hb);
    AdmitRenews(cfg, s, id, hb, from, |data|, now);
    AdmitLeavesOthers(cfg, CountRx(s, id, from, |data|), id, hb, from, now);
    CountLeavesOthers(s, id, from, |data|);
  }

  lemma CountLeavesOthers(s: State, id: ClientID, from: UdpAddr, n: nat)
    ensures var t := CountRx(s, id, from, n);
            && t == s.(sessions := t.sessions, totalRx := s.totalRx + n)
            && t.sessions.Keys == s.sessions.Keys
            && forall c :: c in s.sessions && c != id ==> t.sessions[c] == s.sessions[c]
  {
    hide CountedRx;
    if id in s.sessions {
      var sess := CountedRx(s.sessions[id], from, n);
      assert CountRx(s, id, from, n).sessions == s.sessions[id := sess];
    } else {
      assert CountRx(s, id, from, n).sessions == s.sessions;
    }
  }

  lemma AdmitOpens(cfg: Config, s: State, id: ClientID, hb: Heartbeat, from: UdpAddr, now: Time)
    requires id !in s.sessions
    ensures var t, (ip, prefixLen) := Admit(cfg, s, id, hb, from, now), Assigned(cfg, s, id, hb);
            t.sessions == s.sessions[id := Session(ip, prefixLen, hb.fixed.sendMode, hb.fixed.replyPort, hb.deviceName,
                                                   map[from := AddrInfo(now, 0, Nic(hb, NO_NIC))], now, None, 0, 0)]
  {
    hide Register, Assigned;
    RegisterShape(cfg, s, id, hb, now);
    var begun := Register(cfg, s, id, hb, now);
    FirstAddress(begun.sessions[id], hb, from, now);
    var sess := HeardFrom(begun.sessions[id], from, hb.pathRTTs, now);
    assert begun.sessions[id := sess] == s.sessions[id := sess];
  }

  lemma FirstAddress(sess: Session, hb: Heartbeat, from: UdpAddr, now: Time)
    requires sess.addrs == map[]
    ensures HeardFrom(sess, from, hb.pathRTTs, now)
         == sess.(addrs := map[from := AddrInfo(now, 0, Nic(hb, NO_NIC))])
  {
    var ai := AddrInfo(now, 0, Nic(hb, NO_NIC));
    assert map[][from := ai] == map[from := ai];
    if hb.pathRTTs != [] { assert sess.addrs - StaleAddrs(sess.addrs, from, hb.pathRTTs[0].name) == map[]; }
  }

  /** An accepted heartbeat of an unknown client opens a session known at one address and touches no other. */
  lemma HeartbeatOpensSession(cfg: Config, s: State, data: Bytes, from: UdpAddr, now: Time, io: Io, id: ClientID,
        hb: Heartbeat)
    requires HeartbeatIn(data) == Some((id, hb)) && Accepted(cfg, s, id, hb) && id !in s.sessions
    ensures var t := OnPacket(cfg, s, data, from, now, io).state;
            && id in t.sessions && t.sessions.Keys == s.sessions.Keys + {id}
            && (forall c :: c in s.sessions ==> t.sessions[c] == s.sessions[c])
            && var sess := t.sessions[id];
            && sess == Session(sess.virtualIP, sess.prefixLen, hb.fixed.sendMode, hb.fixed.replyPort, hb.deviceName,
                               map[from := AddrInfo(now, 0, Nic(hb, NO_NIC))], now, None, 0, 0)
            && sess.virtualIP == (if hb.fixed.virtualIP != UNSPECIFIED then hb.fixed.virtualIP
                                  else if Choose(s.pool, id, cfg.subnet, cfg.serverIP).None? then UNSPECIFIED
                                  else Choose(s.pool, id, cfg.subnet, cfg.serverIP).value)
            && sess.prefixLen == (if hb.fixed.virtualIP == UNSPECIFIED
                                     && Choose(s.pool, id, cfg.subnet, cfg.serverIP).Some? then cfg.prefixLen
                                  else hb.fixed.prefixLen)
  {
    hide HeartbeatIn, Accepted, CountRx, OnPacket, Admit, Choose;
    AcceptedIsAdmitted(cfg, s, data, from, now, io, id, hb);
    CountLeavesOthers(s, id, from, |data|);
    AdmitOpens(cfg, CountRx(s, id, from, |data|), id, hb, from, now);
  }

  /** The name a client gives when it is leased an address is kept with the lease, in the file and through restarts. */
  lemma NameIsRemembered(cfg: Config, s: State, id: ClientID, hb: Heartbeat, from: UdpAddr, now: Time)
    requires id !in s.sessions && hb.deviceName != [] && Persisted(s)
    requires if hb.fixed.virtualIP == UNSPECIFIED then Choose(s.pool, id, cfg.subnet, cfg.serverIP).Some?
             else id !in s.pool
    ensures var t := Admit(cfg, s, id, hb, from, now);
            && id in t.pool && id in t.saved && t.saved[id] == Lease(t.pool[id], hb.deviceName)
            && id in Boot(t.saved).names && Boot(t.saved).names[id] == hb.deviceName
  {
    hide Choose, HeardFrom, Entries, Persisted;
    AdmitPersists(cfg, s, id, hb, from, now);
    RegisterNames(cfg, s, id, hb, now);
    EntryOf(Admit(cfg, s, id, hb, from, now), id);
  }

  lemma RegisterNames(cfg: Config, s: State, id: ClientID, hb: Heartbeat, now: Time)
    requires hb.deviceName != []
    requires if hb.fixed.virtualIP == UNSPECIFIED then Choose(s.pool, id, cfg.subnet, cfg.serverIP).Some?
             else id !in s.pool
    ensures var t := Register(cfg, s, id, hb, now); id in t.pool && id in t.names && t.names[id] == hb.deviceName
  {
    hide Choose, Entries;
  }

  lemma AdmitPersists(cfg: Config, s: State, id: ClientID, hb: Heartbeat, from: UdpAddr, now: Time)
    requires Persisted(s)
    ensures Persisted(Admit(cfg, s, id, hb, from, now))
  {
    hide Register, Assigned, HeardFrom, Refresh;
    if id !in s.sessions { RegisterShape(cfg, s, id, hb, now); }
  }

  lemma EntryOf(s: State, id: ClientID)
    requires Persisted(s) && id in s.pool && id in s.names && s.names[id] != []
    ensures id in s.saved && s.saved[id] == Lease(s.pool[id], s.names[id])
    ensures id in Boot(s.saved).names && Boot(s.saved).names[id] == s.names[id]
  {}

  /** Malformed heartbeats and those with the reserved ID are not answered and change nothing but byte counts. */
  lemma SilentHeartbeats(cfg: Config, s: State, data: Bytes, from: UdpAddr, now: Time, io: Io)
    requires DecodeHeader(data).Success? && DecodeHeader(data).value.kind == TYPE_HEARTBEAT
    requires HeartbeatIn(data).None? ||
             (HeartbeatIn(data).value.0 == 0 && HeartbeatIn(data).value.1.fixed.teamKeyHash == cfg.teamKeyHash)
    ensures OnPacket(cfg, s, data, from, now, io) ==
            Next(CountRx(s, DecodeHeader(data).value.clientID, from, |data|), [])
  {
    hide DecodeHeader, ParseHeartbeat, CountRx;
  }

  // ---- Data ----

  /** A data packet of a registered source that was not seen before. */
  predicate Fresh(cfg: Config, s: State, data: Bytes) {
    && DecodeHeader(data).Success? && DecodeHeader(data).value.kind == TYPE_DATA
    && Acceptable(s, DecodeHeader(data).value.clientID, data[HEADER_SIZE..])
    && var h := DecodeHeader(data).value; !Observe(Lookup(s.dedup, h.clientID), h.seqNo, cfg.window).duplicate
  }

  /** What it does to its sender's session, apart from packets that client sends to itself. */
  ghost predicate HeardData(before: Session, after: Session, from: UdpAddr, n: nat, now: Time) {
    && after.addrs.Keys == before.addrs.Keys
    && (forall a :: a in before.addrs && a != from ==> after.addrs[a] == before.addrs[a])
    && (from in before.addrs ==>
          after.addrs[from] == AddrInfo(now, before.addrs[from].rxBytes + n, before.addrs[from].nic))
    && after.lastSeen == now && after.lastDataAddr == Some(from) && after.rxBytes == before.rxBytes + n
    && after.virtualIP == before.virtualIP && after.prefixLen == before.prefixLen
    && after.sendMode == before.sendMode && after.replyPort == before.replyPort
    && after.deviceName == before.deviceName
  }

  lemma DataFromHeard(sess: Session, from: UdpAddr, n: nat, now: Time, tx: nat)
    ensures HeardData(sess, DataFrom(CountedRx(sess, from, n), from, now).(txBytes := tx), from, n, now)
  {}

  lemma RouteChangesTx(cfg: Config, s: State, payload: Bytes, packet: Bytes, io: Io)
    requires InnerIPv4(payload)
    ensures var t := Route(cfg, s, payload, packet, io).state;
            && t.sessions.Keys == s.sessions.Keys
            && forall c :: c in s.sessions ==> t.sessions[c] == s.sessions[c].(txBytes := t.sessions[c].txBytes)
  {
    hide Fanout, Written, Targets, Destination;
  }

  lemma FreshIsRouted(cfg: Config, s: State, data: Bytes, from: UdpAddr, now: Time, io: Io)
    requires Fresh(cfg, s, data)
    ensures var h := DecodeHeader(data).value;
            var s1 := CountRx(s, h.clientID, from, |data|);
            && h.clientID in s1.sessions && InnerIPv4(data[HEADER_SIZE..])
            && var v := Observe(Lookup(s.dedup, h.clientID), h.seqNo, cfg.window);
            var s2 := s1.(dedup := s.dedup[h.clientID := v.window],
                          sessions := s1.sessions[h.clientID := DataFrom(s1.sessions[h.clientID], from, now)]);
            OnPacket(cfg, s, data, from, now, io) == Route(cfg, s2, data[HEADER_SIZE..], data, io)
  {
    hide DecodeHeader, Observe, Source, Destination, Route;
  }

  /** Accepted data renews the times of session and address, and marks the address for replies. */
  lemma DataRenewsSession(cfg: Config, s: State, data: Bytes, from: UdpAddr, now: Time, io: Io)
    requires Fresh(cfg, s, data)
    ensures var id, t := DecodeHeader(data).value.clientID, OnPacket(cfg, s, data, from, now, io).state;
            && id in s.sessions && id in t.sessions && HeardData(s.sessions[id], t.sessions[id], from, |data|, now)
            && t.sessions.Keys == s.sessions.Keys
            && forall c :: c in s.sessions && c != id ==>
                 t.sessions[c] == s.sessions[c].(txBytes := t.sessions[c].txBytes)
  {
    hide DecodeHeader, Observe, OnPacket, Route, DataFrom, CountedRx, HeardData, Source;
    FreshIsRouted(cfg, s, data, from, now, io);
    var h := DecodeHeader(data).value;
    var s1 := CountRx(s, h.clientID, from, |data|);
    var v := Observe(Lookup(s.dedup, h.clientID), h.seqNo, cfg.window);
    var s2 := s1.(dedup := s.dedup[h.clientID := v.window],
                  sessions := s1.sessions[h.clientID := DataFrom(s1.sessions[h.clientID], from, now)]);
    RouteChangesTx(cfg, s2, data[HEADER_SIZE..], data, io);
    var tx := OnPacket(cfg, s, data, from, now, io).state.sessions[h.clientID].txBytes;
    DataFromHeard(s.sessions[h.clientID], from, |data|, now, tx);
  }

  /** Data for the server itself is written to its TUN device, if it has one, and goes nowhere else. */
  lemma ServerIsReached(cfg: Config, s: State, data: Bytes, from: UdpAddr, now: Time, io: Io)
    requires Fresh(cfg, s, data) && Destination(data[HEADER_SIZE..]) == cfg.serverIP
    ensures OnPacket(cfg, s, data, from, now, io).effects == if cfg.hasTun then [ToTun(data[HEADER_SIZE..])] else []
  {
    hide DecodeHeader, Observe, Source, OnPacket, CountRx;
    FreshIsRouted(cfg, s, data, from, now, io);
  }

  /** Data that was seen before or comes from no registered source has no effect but on counts and window. */
  lemma StaleDataIsDropped(cfg: Config, s: State, data: Bytes, from: UdpAddr, now: Time, io: Io)
    requires DecodeHeader(data).Success? && DecodeHeader(data).value.kind == TYPE_DATA && !Fresh(cfg, s, data)
    ensures var next, h := OnPacket(cfg, s, data, from, now, io), DecodeHeader(data).value;
            var v := Observe(Lookup(s.dedup, h.clientID), h.seqNo, cfg.window);
            && next.effects == []
            && next.state == CountRx(s, h.clientID, from, |data|).(dedup := s.dedup[h.clientID := v.window])
  {
    hide DecodeHeader, Observe, Source, CountRx, Route;
    var h := DecodeHeader(data).value;
    CountRxSameMaps(s, h.clientID, from, |data|);
    CountLeavesOthers(s, h.clientID, from, |data|);
  }

  /** What is neither heartbeat nor data is only counted, and what has no header not even that. */
  lemma OtherPacketsAreCounted(cfg: Config, s: State, data: Bytes, from: UdpAddr, now: Time, io: Io)
    requires DecodeHeader(data).Failure? || DecodeHeader(data).value.kind !in {TYPE_HEARTBEAT, TYPE_DATA}
    ensures OnPacket(cfg, s, data, from, now, io) ==
            Next(if DecodeHeader(data).Failure? then s
                 else CountRx(s, DecodeHeader(data).value.clientID, from, |data|), [])
  {
    hide DecodeHeader, CountRx;
  }

  // ---- Cleanup ----

  /** A session that survives cleanup keeps everything but the addresses that expired. */
  lemma SurvivorsKeepSettings(cfg: Config, s: State, now: Time)
    ensures var t := Cleanup(cfg, s, now);
            && t == s.(sessions := t.sessions, routes := t.routes, dedup := t.dedup)
            && forall c :: c in t.sessions ==>
                 && c in s.sessions && t.sessions[c] == s.sessions[c].(addrs := t.sessions[c].addrs)
                 && forall a :: a in t.sessions[c].addrs ==>
                      a in s.sessions[c].addrs && t.sessions[c].addrs[a] == s.sessions[c].addrs[a]
  {
    hide Expired;
  }

  /** What cleanup removes belongs to sessions that expired. */
  lemma OnlyExpiredIsForgotten(cfg: Config, s: State, now: Time)
    ensures var t := Cleanup(cfg, s, now);
            && (forall ip :: ip in s.routes && ip !in t.routes ==>
                  exists c :: c in s.sessions && c !in t.sessions && s.sessions[c].virtualIP == ip)
            && (forall ip :: ip in t.routes ==> ip in s.routes && t.routes[ip] == s.routes[ip])
            && forall c :: c in s.dedup && (c in t.sessions || c !in s.sessions) ==>
                 c in t.dedup && t.dedup[c] == s.dedup[c]
  {
    hide Expired, FreshAddrs;
    var t, gone := Cleanup(cfg, s, now), ExpiredIDs(cfg, s, now);
    forall ip | ip in s.routes && ip !in t.routes
      ensures exists c :: c in s.sessions && c !in t.sessions && s.sessions[c].virtualIP == ip
    {
      var c :| c in gone && s.sessions[c].virtualIP == ip;
      assert c in s.sessions && c !in t.sessions;
    }
  }
}
