/** The byte counts are exact: every packet received and every write that succeeded, no more and no less. */
module Accounting {
  import opened Basics
  import opened Packet
  import opened Dedup
  import opened Checksum
  import opened ServerModel
  import opened ServerInvariants
  import opened ServerForwarding
  import opened Sessions

  // ---- Received ----

  /** The totals count every packet with a header, whatever becomes of it. */
  lemma ReceivedIsCounted(cfg: Config, s: State, data: Bytes, from: UdpAddr, now: Time, io: Io)
    ensures OnPacket(cfg, s, data, from, now, io).state.totalRx ==
            s.totalRx + if DecodeHeader(data).Success? then |data| else 0
  {
    hide DecodeHeader, OnHeartbeat, OnData, CountedRx;
    if DecodeHeader(data).Success? {
      var h := DecodeHeader(data).value;
      var s1 := CountRx(s, h.clientID, from, |data|);
      HeartbeatKeepsTotals(cfg, s1, h.clientID, data[HEADER_SIZE..], from, now);
      DataKeepsReceived(cfg, s1, h, data[HEADER_SIZE..], data, from, now, io);
    }
  }

  lemma HeartbeatKeepsTotals(cfg: Config, s: State, id: ClientID, payload: Bytes, from: UdpAddr, now: Time)
    ensures var t := OnHeartbeat(cfg, s, id, payload, from, now).state; t.totalRx == s.totalRx && t.totalTx == s.totalTx
  {
    hide ParseHeartbeat, Admit, AckPacket;
    if ParseHeartbeat(payload).Success? { AdmitLeavesOthers(cfg, s, id, ParseHeartbeat(payload).value, from, now); }
  }

  lemma DataKeepsReceived(cfg: Config, s: State, h: Header, payload: Bytes, packet: Bytes, from: UdpAddr, now: Time,
        io: Io)
    ensures OnData(cfg, s, h, payload, packet, from, now, io).state.totalRx == s.totalRx
  {
    hide Observe, Fanout, Written, Targets, Source, Destination;
  }

  // ---- Sent ----

  /** To how many of its addresses the session is written: ReplyPort copies do not count. */
  function Writes(sess: Session, io: Io): nat {
    if sess.sendMode != SEND_MODE_FAILOVER then |sess.addrs.Keys * io.ok|
    else if io.order == [] || PreferredAddr(sess, io.order) !in io.ok then 0
    else 1
  }

  /** The bytes of these writes. */
  function Charge(sess: Session, io: Io, size: nat): nat { Writes(sess, io) * size }

  lemma {:induction false} WrittenCounts(order: seq<UdpAddr>, io: Io)
    requires forall i, j :: 0 <= i < j < |order| ==> order[i] != order[j]
    ensures Written(order, io) == |(set a | a in order) * io.ok|
  {
    if order == [] {
      assert (set a | a in order) * io.ok == {};
    } else {
      var n := |order| - 1;
      WrittenCounts(order[..n], io);
      var earlier := (set a | a in order[..n]) * io.ok;
      assert order == order[..n] + [order[n]];
      assert order[n] !in earlier;
      assert (set a | a in order) * io.ok == if order[n] in io.ok then earlier + {order[n]} else earlier;
    }
  }

  lemma TargetsCount(sess: Session, io: Io)
    requires Enumerates(io.order, sess.addrs)
    ensures Writes(sess, io) == if sess.addrs == map[] then 0 else Written(Targets(sess, io), io)
  {
    hide Written;
    assert (set a | a in io.order) == sess.addrs.Keys;
    WrittenCounts(io.order, io);
    assert io.order != [] ==> io.order[0] in io.order && io.order[0] in sess.addrs;
    if sess.addrs == map[] {
      assert sess.addrs.Keys * io.ok == {};
    } else {
      assert io.order != [] by { var a :| a in sess.addrs; assert a in io.order; }
      var preferred := PreferredAddr(sess, io.order);
      WrittenOfOne(preferred, io);
      assert sess.sendMode == SEND_MODE_FAILOVER ==> Targets(sess, io) == [preferred];
    }
  }

  lemma SendCharges(s: State, d: ClientID, data: Bytes, io: Io)
    requires d in s.sessions && Enumerates(io.order, s.sessions[d].addrs)
    ensures var t, n := SendToClient(s, d, data, io).state, Charge(s.sessions[d], io, |data|);
            t == s.(sessions := s.sessions[d := s.sessions[d].(txBytes := s.sessions[d].txBytes + n)],
                    totalTx := s.totalTx + n)
  {
    hide Fanout, Written, Writes, Targets;
    TargetsCount(s.sessions[d], io);
    if s.sessions[d].addrs == map[] {
      assert Charge(s.sessions[d], io, |data|) == 0;
      assert s.sessions[d := s.sessions[d].(txBytes := s.sessions[d].txBytes + 0)] == s.sessions;
    }
  }

  lemma WrittenOfOne(a: UdpAddr, io: Io)
    ensures Written([a], io) == if a in io.ok then 1 else 0
  {
    assert [a][..0] == [];
    assert Written([], io) == 0;
  }

  /** A fresh packet is charged to the client that holds its destination, once for every address written to. */
  lemma HolderIsCharged(cfg: Config, s: State, data: Bytes, from: UdpAddr, now: Time, io: Io, d: ClientID)
    requires Consistent(cfg, s) && Fresh(cfg, s, data)
    requires var dst := Destination(data[HEADER_SIZE..]);
             d in s.sessions && s.sessions[d].virtualIP == dst && dst != UNSPECIFIED && dst != cfg.serverIP
    requires Enumerates(io.order, s.sessions[d].addrs)
    ensures var sess := s.sessions[d];
            var known := if d == DecodeHeader(data).value.clientID then sess.(lastDataAddr := Some(from)) else sess;
            var t, n := OnPacket(cfg, s, data, from, now, io).state, Charge(known, io, |data|);
            && t.totalTx == s.totalTx + n && d in t.sessions && t.sessions[d].txBytes == sess.txBytes + n
            && forall c :: c in s.sessions && c != d ==>
                 c in t.sessions && t.sessions[c].txBytes == s.sessions[c].txBytes
  {
    hide Observe, Source, Destination, DecodeHeader, SendToClient, OnPacket, Charge;
    assert SessionFollowsLease(s, d);
    FreshIsRouted(cfg, s, data, from, now, io);
    var h := DecodeHeader(data).value;
    var s1 := CountRx(s, h.clientID, from, |data|);
    var v := Observe(Lookup(s.dedup, h.clientID), h.seqNo, cfg.window);
    var s2 := s1.(dedup := s.dedup[h.clientID := v.window],
                  sessions := s1.sessions[h.clientID := DataFrom(s1.sessions[h.clientID], from, now)]);
    assert s2.sessions[d].addrs.Keys == s.sessions[d].addrs.Keys;
    SendCharges(s2, d, data, io);
    var sess := s.sessions[d];
    SameCharge(if d == h.clientID then sess.(lastDataAddr := Some(from)) else sess, s2.sessions[d], io, |data|);
  }

  lemma SameCharge(a: Session, b: Session, io: Io, size: nat)
    requires a.sendMode == b.sendMode && a.addrs.Keys == b.addrs.Keys && a.lastDataAddr == b.lastDataAddr
    ensures Charge(a, io, size) == Charge(b, io, size)
  {}

  /** And so is a packet from the server's TUN device. */
  lemma TunIsCharged(cfg: Config, s: State, payload: Bytes, io: Io, d: ClientID)
    requires Consistent(cfg, s) && InnerIPv4(payload) && d in s.sessions
    requires s.sessions[d].virtualIP == Destination(payload) != UNSPECIFIED
    requires Enumerates(io.order, s.sessions[d].addrs)
    ensures var n := Charge(s.sessions[d], io, HEADER_SIZE + |payload|);
            OnTun(s, payload, io).state ==
              s.(sessions := s.sessions[d := s.sessions[d].(txBytes := s.sessions[d].txBytes + n)],
                 totalTx := s.totalTx + n, seqNo := (s.seqNo + 1) % TWO32)
  {
    hide SendToClient, Destination, Charge;
    assert SessionFollowsLease(s, d);
    var packet := HeaderBytes(Header(VERSION1, TYPE_DATA, false, 0, s.seqNo)) + payload;
    SendCharges(s.(seqNo := (s.seqNo + 1) % TWO32), d, packet, io);
  }

  lemma StaleChargesNobody(cfg: Config, s: State, data: Bytes, from: UdpAddr, now: Time, io: Io)
    requires DecodeHeader(data).Success? && DecodeHeader(data).value.kind == TYPE_DATA
    requires !Fresh(cfg, s, data) || Destination(data[HEADER_SIZE..]) == cfg.serverIP
    ensures OnPacket(cfg, s, data, from, now, io).state.totalTx == s.totalTx
  {
    hide DecodeHeader, Observe, OnPacket, Source, Destination, Fresh, CountedRx, SendToClient;
    if Fresh(cfg, s, data) { FreshIsRouted(cfg, s, data, from, now, io); }
    else { StaleDataIsDropped(cfg, s, data, from, now, io); }
  }

  /** Data for the server itself, data that is dropped and heartbeats are charged to nobody. */
  lemma NothingElseIsCharged(cfg: Config, s: State, data: Bytes, from: UdpAddr, now: Time, io: Io)
    requires !Fresh(cfg, s, data) || Destination(data[HEADER_SIZE..]) == cfg.serverIP
    ensures OnPacket(cfg, s, data, from, now, io).state.totalTx == s.totalTx
  {
    hide DecodeHeader, OnHeartbeat, OnData, Fresh, CountedRx, Destination;
    if DecodeHeader(data).Success? {
      var h := DecodeHeader(data).value;
      HeartbeatKeepsTotals(cfg, CountRx(s, h.clientID, from, |data|), h.clientID, data[HEADER_SIZE..], from, now);
      if h.kind == TYPE_DATA { StaleChargesNobody(cfg, s, data, from, now, io); }
    }
  }
}
