/** What a heartbeat achieves: a session, a sticky address, a known source address, and a way back after expiry. */
module Registration {
  import opened Basics
  import opened Packet
  import opened Dedup
  import opened DedupTheory
  import opened Allocation
  import opened ServerModel
  import opened ServerInvariants

  /** The ack in a packet to a client. */
  function AckIn(packet: Bytes): Option<Ack> {
    match DecodeHeader(packet)
    case Failure(_) => None
    case Success(h) =>
      if h.kind != TYPE_HEARTBEAT_ACK then None else
      match DecodeHeartbeatAck(packet[HEADER_SIZE..])
      case Failure(_) => None
      case Success(a) => Some(a)
  }

  lemma AckReadBack(seqNo: UInt32, a: Ack)
    ensures AckIn(AckPacket(seqNo, a)) == Some(a)
    ensures DecodeHeader(AckPacket(seqNo, a)) == Success(Header(VERSION1, TYPE_HEARTBEAT_ACK, false, 0, seqNo))
  {
    hide DecodeHeader, DecodeHeartbeatAck, HeaderBytes, AckBytes;
    HeaderRoundTrip(Header(VERSION1, TYPE_HEARTBEAT_ACK, false, 0, seqNo), AckBytes(a));
    AckRoundTrip(a, []);
    assert AckPacket(seqNo, a)[HEADER_SIZE..] == AckBytes(a) + [];
  }

  /** A heartbeat the server does not refuse. */
  predicate Accepted(cfg: Config, s: State, id: ClientID, hb: Heartbeat) {
    && hb.fixed.teamKeyHash == cfg.teamKeyHash && id != 0
    && (id in s.sessions ==> hb.fixed.virtualIP in {UNSPECIFIED, s.sessions[id].virtualIP})
  }

  /** The address the session has afterwards: the one it had, or the one the client brought or is assigned. */
  function SessionAddress(cfg: Config, s: State, id: ClientID, hb: Heartbeat): IPv4 {
    if id in s.sessions then s.sessions[id].virtualIP else Assigned(cfg, s, id, hb).0
  }

  lemma AdmittedSession(cfg: Config, s: State, id: ClientID, hb: Heartbeat, from: UdpAddr, now: Time)
    ensures var sess := Admit(cfg, s, id, hb, from, now).sessions[id];
            && sess.virtualIP == SessionAddress(cfg, s, id, hb)
            && sess.sendMode == hb.fixed.sendMode && sess.replyPort == hb.fixed.replyPort && sess.lastSeen == now
            && from in sess.addrs && sess.addrs[from].lastSeen == now
            && (hb.pathRTTs != [] ==> sess.addrs[from].nic == hb.pathRTTs[0])
  {
    hide Choose, Allocated, Pooled;
    if id !in s.sessions { RegisterSession(cfg, s, id, hb, now); }
  }

  lemma RegisterSession(cfg: Config, s: State, id: ClientID, hb: Heartbeat, now: Time)
    ensures var t := Register(cfg, s, id, hb, now);
            && id in t.sessions && t.sessions[id].virtualIP == Assigned(cfg, s, id, hb).0
            && t.sessions[id].sendMode == hb.fixed.sendMode && t.sessions[id].replyPort == hb.fixed.replyPort
            && t.sessions[id].lastSeen == now
  {
    hide Register, Assigned;
    RegisterShape(cfg, s, id, hb, now);
  }

  lemma AdmitKeepsCounter(cfg: Config, s: State, id: ClientID, hb: Heartbeat, from: UdpAddr, now: Time)
    ensures Admit(cfg, s, id, hb, from, now).seqNo == s.seqNo
  {
    hide Register, Assigned, HeardFrom;
    if id !in s.sessions { RegisterShape(cfg, s, id, hb, now); }
  }

  /**
   * The answer to a heartbeat: a wrong key is refused with status 1 and a differing address with status 2 and
   * the registered address, both without touching any session; otherwise the session is (re)registered and
   * its address acknowledged.
   */
  lemma HeartbeatAnswer(cfg: Config, s: State, id: ClientID, payload: Bytes, from: UdpAddr, now: Time)
    requires ParseHeartbeat(payload).Success? && id != 0
    ensures var hb, next := ParseHeartbeat(payload).value, OnHeartbeat(cfg, s, id, payload, from, now);
            && |next.effects| == 1 && next.effects[0].SendAck? && next.effects[0].to == from
            && AckIn(next.effects[0].packet).Some?
            && var ack := AckIn(next.effects[0].packet).value;
            && (ack.status == ACK_OK <==> Accepted(cfg, s, id, hb))
            && (ack.status == ACK_TEAM_KEY_MISMATCH <==> hb.fixed.teamKeyHash != cfg.teamKeyHash)
            && (ack.status == ACK_CLIENT_ID_CONFLICT <==>
                  hb.fixed.teamKeyHash == cfg.teamKeyHash && !Accepted(cfg, s, id, hb))
            && (ack.status != ACK_OK ==> next.state == s.(seqNo := next.state.seqNo))
            && DecodeHeader(next.effects[0].packet) ==
                 Success(Header(VERSION1, TYPE_HEARTBEAT_ACK, false, 0, s.seqNo))
            && next.state.seqNo == (s.seqNo + 1) % TWO32 && ack.mtu == cfg.mtu
            && (ack.status == ACK_TEAM_KEY_MISMATCH ==> ack.assignedIP == UNSPECIFIED && ack.prefixLen == 0)
            && (ack.status == ACK_CLIENT_ID_CONFLICT ==>
                  && id in s.sessions
                  && ack.assignedIP == s.sessions[id].virtualIP && ack.prefixLen == s.sessions[id].prefixLen)
            && (ack.status == ACK_OK ==>
                  && id in next.state.sessions && ack.assignedIP == next.state.sessions[id].virtualIP
                  && ack.prefixLen == next.state.sessions[id].prefixLen
                  && next.state.sessions[id].virtualIP == SessionAddress(cfg, s, id, hb)
                  && from in next.state.sessions[id].addrs
                  && next.state.sessions[id].lastSeen == next.state.sessions[id].addrs[from].lastSeen == now)
  {
    hide ParseHeartbeat, Admit, AckPacket, SessionAddress, AckIn, DecodeHeader;
    AdmitKeepsCounter(cfg, s, id, ParseHeartbeat(payload).value, from, now);
    var hb := ParseHeartbeat(payload).value;
    AdmittedSession(cfg, s, id, hb, from, now);
    var s1 := Admit(cfg, s, id, hb, from, now);
    AckReadBack(s1.seqNo, Ack(s1.sessions[id].virtualIP, s1.sessions[id].prefixLen, ACK_OK, cfg.mtu));
    AckReadBack(s.seqNo, Ack(UNSPECIFIED, 0, ACK_TEAM_KEY_MISMATCH, cfg.mtu));
    if id in s.sessions {
      AckReadBack(s.seqNo, Ack(s.sessions[id].virtualIP, s.sessions[id].prefixLen, ACK_CLIENT_ID_CONFLICT, cfg.mtu));
    }
  }

  /** The same device gets the same address again, whether or not its session still exists. */
  lemma AddressIsSticky(cfg: Config, s: State, id: ClientID, hb: Heartbeat)
    requires Consistent(cfg, s) && id in s.pool && hb.fixed.virtualIP in {UNSPECIFIED, s.pool[id]}
    ensures SessionAddress(cfg, s, id, hb) == s.pool[id]
  {
    hide Choose;
    if id in s.sessions { assert SessionFollowsLease(s, id); }
  }

  /** A new client gets a host address of the subnet as long as leases (and the server) leave one. */
  lemma NewClientGetsAddress(cfg: Config, s: State, id: ClientID, hb: Heartbeat)
    requires id !in s.pool && id !in s.sessions && hb.fixed.virtualIP == UNSPECIFIED
    requires cfg.subnet.Some? && |s.pool| + 1 < Pow2(32 - cfg.subnet.value.ones) - 2
    ensures var ip := SessionAddress(cfg, s, id, hb);
            && cfg.subnet.value.IsHost(ip) && ip != UNSPECIFIED && ip != cfg.serverIP && ip !in s.pool.Values
  {
    hide Choose, Pow2;
    EnoughHosts(s.pool, id, cfg.subnet.value, cfg.serverIP);
    NewLeaseIsLowestFree(s.pool, id, cfg.subnet, cfg.serverIP);
  }

  /** The steps that may take a session away. */
  predicate EndsSession(step: Step) { step.Tick? || step.RemoveDevice? || step.RemoveClient? || step.Restart? }

  /** The step forgets what was heard from the client. */
  predicate ForgetsWindow(cfg: Config, s: State, step: Step, id: ClientID, now: Time) {
    || step.Restart?
    || (step.Tick? && id in ExpiredIDs(cfg, s, now))
    || (step.RemoveDevice? && step.id == id && id in s.pool && id in s.sessions)
  }

  lemma WindowAfter(cfg: Config, s: State, step: Step, id: ClientID, now: Time)
    requires EndsSession(step)
    ensures Lookup(Apply(cfg, s, step, now).state.dedup, id)
         == if ForgetsWindow(cfg, s, step, id, now) then None else Lookup(s.dedup, id)
  {
    hide Entries, ExpiredIDs;
  }

  /**
   * A client comes back, its counter starting anew. After expiry, a restart or the removal of its device every
   * packet is heard. After DeleteClient, which keeps the window, the i-th packet is heard if and only if the first
   * one was far below the window's maxSeq, or this one lies above it, or its slot is free.
   */
  lemma ReturningClientHeardIff(cfg: Config, s: State, step: Step, id: ClientID, now: Time, ks: seq<UInt32>, i: nat)
    requires EndsSession(step) && Restarted(ks) && i < |ks|
    ensures !DroppedAt(Lookup(Apply(cfg, s, step, now).state.dedup, id), ks, i, cfg.window) <==>
            || ForgetsWindow(cfg, s, step, id, now) || id !in s.dedup
            || var Window(maxSeq, slots) := s.dedup[id];
               || StartsOver(maxSeq, ks[0], cfg.window)
               || ks[i] > maxSeq || (ks[i] < maxSeq && Slot(ks[i], cfg.window) !in slots)
  {
    hide DroppedAt, Apply, ForgetsWindow;
    WindowAfter(cfg, s, step, id, now);
    RestartedStream(Lookup(Apply(cfg, s, step, now).state.dedup, id), ks, i, cfg.window);
  }

  /**
   * The same in terms of what was heard before DeleteClient: a packet is lost exactly if the window does not start
   * over and its number was heard already.
   */
  lemma DeletedClientLoses(cfg: Config, s: State, id: ClientID, t: Track, ks: seq<UInt32>, i: nat)
    requires id in s.dedup && Denotes(s.dedup[id], t, cfg.window) && Restarted(ks) && i < |ks|
    ensures DroppedAt(Lookup(DeleteClient(s, id).dedup, id), ks, i, cfg.window) <==>
            && !StartsOver(s.dedup[id].maxSeq, ks[0], cfg.window)
            && ks[i] <= s.dedup[id].maxSeq && t.top - (s.dedup[id].maxSeq - ks[i]) in t.seen
  {
    hide DroppedAt, Denotes, Entries;
    RestartedStreamLoses(s.dedup[id], t, ks, i, cfg.window);
  }

  /**
   * An address change that the client never hears of does not heal: once its session has expired, a heartbeat
   * with the old address opens a session that contradicts the lease. It goes well if and only if the client
   * asks for no address or already for the new one.
   */
  lemma UnnoticedUpdate(cfg: Config, s: State, id: ClientID, ip: IPv4, hb: Heartbeat, from: UdpAddr, expiry: Time,
        now: Time)
    requires Consistent(cfg, s) && MayUpdate(cfg, s, id, Some(ip))
    requires id in ExpiredIDs(cfg, Reassigned(cfg, s, id, ip), expiry)
    ensures var t := Cleanup(cfg, Reassigned(cfg, s, id, ip), expiry);
            Consistent(cfg, Admit(cfg, t, id, hb, from, now)) <==> hb.fixed.virtualIP in {UNSPECIFIED, ip}
  {
    hide Consistent, Persisted, Admit, Entries, Expired;
    var u := Reassigned(cfg, s, id, ip);
    var t := Cleanup(cfg, u, expiry);
    ReassignConsistent(cfg, s, id, ip);
    ReassignPersists(cfg, s, id, ip);
    CleanupConsistent(cfg, u, expiry);
    CleanupPersists(cfg, u, expiry);
    AdmitConsistent(cfg, t, id, hb, from, now);
    assert id !in t.sessions && t.pool[id] == ip;
  }
}
