/** Forwarding is faithful: who may send, who receives, and that the packet is not touched. */
module ServerForwarding {
  import opened Basics
  import opened Packet
  import opened Dedup
  import opened Checksum
  import opened ServerModel
  import opened ServerInvariants

  /** Every effect hands this very packet to this very client. */
  ghost predicate OnlyForwards(effects: seq<Effect>, id: ClientID, packet: Bytes) {
    forall e :: e in effects ==> e.Forward? && e.client == id && e.packet == packet
  }

  /** One of the targets that can be written to, or the session's ReplyPort on the host of one. */
  predicate ReachesTarget(sess: Session, io: Io, targets: seq<UdpAddr>, to: UdpAddr) {
    to in io.ok && exists t ::
      t in targets && t in io.ok && (to == t || (sess.replyPort > 0 && to == UdpAddr(t.host, sess.replyPort)))
  }

  /** The packet is written to a and, if that differs, to the ReplyPort on the same host. */
  predicate WrittenTo(sess: Session, io: Io, effects: seq<Effect>, a: UdpAddr, id: ClientID, packet: Bytes) {
    && Forward(a, id, packet) in effects
    && (sess.replyPort > 0 && sess.replyPort != a.port && UdpAddr(a.host, sess.replyPort) in io.ok ==>
          Forward(UdpAddr(a.host, sess.replyPort), id, packet) in effects)
  }

  lemma {:induction false} FanoutForwards(sess: Session, io: Io, targets: seq<UdpAddr>, id: ClientID, packet: Bytes)
    ensures OnlyForwards(Fanout(sess, io, targets, id, packet), id, packet)
    ensures forall a :: a in targets && a in io.ok ==>
              WrittenTo(sess, io, Fanout(sess, io, targets, id, packet), a, id, packet)
    ensures forall e :: e in Fanout(sess, io, targets, id, packet) ==> ReachesTarget(sess, io, targets, e.to)
  {
    if targets != [] {
      var n := |targets| - 1;
      FanoutForwards(sess, io, targets[..n], id, packet);
      var copies := Copies(sess, io, targets[n]);
      var last := Deliveries(copies, id, packet);
      var all := Fanout(sess, io, targets[..n], id, packet) + last;
      if targets[n] in io.ok { CopiesWritten(sess, io, targets[n], id, packet); }
      forall a | a in targets && a in io.ok ensures WrittenTo(sess, io, all, a, id, packet) {
        if a in targets[..n] { assert WrittenTo(sess, io, Fanout(sess, io, targets[..n], id, packet), a, id, packet); }
        else { assert a == targets[n]; }
      }
      assert forall a :: ReachesTarget(sess, io, targets[..n], a) ==> ReachesTarget(sess, io, targets, a);
      assert forall a :: a in copies ==> ReachesTarget(sess, io, targets, a);
    }
  }

  lemma CopiesWritten(sess: Session, io: Io, a: UdpAddr, id: ClientID, packet: Bytes)
    requires a in io.ok
    ensures WrittenTo(sess, io, Deliveries(Copies(sess, io, a), id, packet), a, id, packet)
  {
    var copies := Copies(sess, io, a);
    var last := Deliveries(copies, id, packet);
    assert copies[0] == a && last[0] == Forward(a, id, packet);
    if |copies| > 1 { assert last[1] == Forward(copies[1], id, packet); }
  }

  lemma RouteForwards(cfg: Config, s: State, payload: Bytes, packet: Bytes, io: Io)
    requires InnerIPv4(payload)
    ensures var dst, effects := Destination(payload), Route(cfg, s, payload, packet, io).effects;
            if dst == cfg.serverIP then effects == (if cfg.hasTun then [ToTun(payload)] else [])
            else if dst in s.routes && s.routes[dst] in s.sessions then
              && OnlyForwards(effects, s.routes[dst], packet)
              && forall e :: e in effects ==>
                    ReachesTarget(s.sessions[s.routes[dst]], io, Targets(s.sessions[s.routes[dst]], io), e.to)
            else effects == []
  {
    hide Fanout, Written, Destination;
    var dst := Destination(payload);
    if dst in s.routes && s.routes[dst] in s.sessions {
      var sess := s.sessions[s.routes[dst]];
      FanoutForwards(sess, io, Targets(sess, io), s.routes[dst], packet);
    }
  }

  /** In a consistent state the client a packet is routed to is the holder of its destination. */
  lemma RouteLeadsToHolder(cfg: Config, s: State, dst: IPv4)
    requires Consistent(cfg, s) && dst in s.routes && s.routes[dst] in s.sessions
    ensures s.sessions[s.routes[dst]].virtualIP == dst
  {
    assert SessionFollowsLease(s, s.routes[dst]);
  }

  /** What a forwarded packet looks like, in terms of the state it was received in. */
  ghost predicate FaithfulForward(cfg: Config, s: State, data: Bytes, e: Effect) {
    && e.Forward? && e.packet == data && DecodeHeader(data).Success?
    && var h, payload := DecodeHeader(data).value, data[HEADER_SIZE..];
    && h.kind == TYPE_DATA && InnerIPv4(payload)
    && h.clientID in s.sessions && Source(payload) == s.sessions[h.clientID].virtualIP
    && e.client in s.sessions && Destination(payload) == s.sessions[e.client].virtualIP
    && Destination(payload) in s.routes && s.routes[Destination(payload)] == e.client
    && Destination(payload) != cfg.serverIP
  }

  ghost predicate FaithfulTun(cfg: Config, s: State, data: Bytes, e: Effect) {
    && e.ToTun? && DecodeHeader(data).Success?
    && var h, payload := DecodeHeader(data).value, data[HEADER_SIZE..];
    && e.payload == payload && h.kind == TYPE_DATA && InnerIPv4(payload)
    && h.clientID in s.sessions && Source(payload) == s.sessions[h.clientID].virtualIP
    && Destination(payload) == cfg.serverIP
  }

  lemma DataFaithful(cfg: Config, s: State, data: Bytes, from: UdpAddr, now: Time, io: Io)
    requires Consistent(cfg, s) && DecodeHeader(data).Success? && DecodeHeader(data).value.kind == TYPE_DATA
    ensures var next := OnData(cfg, s, DecodeHeader(data).value, data[HEADER_SIZE..], data, from, now, io);
            forall e :: e in next.effects ==> FaithfulForward(cfg, s, data, e) || FaithfulTun(cfg, s, data, e)
  {
    hide Observe, Route, Source, Destination;
    var h, payload := DecodeHeader(data).value, data[HEADER_SIZE..];
    var v := Observe(Lookup(s.dedup, h.clientID), h.seqNo, cfg.window);
    var s1 := s.(dedup := s.dedup[h.clientID := v.window]);
    if !v.duplicate && Acceptable(s1, h.clientID, payload) {
      var s2 := s1.(sessions := s1.sessions[h.clientID := DataFrom(s1.sessions[h.clientID], from, now)]);
      RouteForwards(cfg, s2, payload, data, io);
      if Destination(payload) in s2.routes && s2.routes[Destination(payload)] in s2.sessions {
        RouteLeadsToHolder(cfg, s, Destination(payload));
      }
    }
  }

  /**
   * Whatever packet arrives in a consistent state, what goes out to a client is that packet unchanged,
   * from the registered address of its sender to the address of that client; packets for the server
   * reach no client.
   */
  lemma ForwardingFaithful(cfg: Config, s: State, data: Bytes, from: UdpAddr, now: Time, io: Io)
    requires Consistent(cfg, s)
    ensures forall e :: e in OnPacket(cfg, s, data, from, now, io).effects && !e.SendAck? ==>
      FaithfulForward(cfg, s, data, e) || FaithfulTun(cfg, s, data, e)
  {
    hide Consistent, OnData, FaithfulForward, FaithfulTun, DecodeHeader, CountRx;
    if DecodeHeader(data).Success? {
      var h := DecodeHeader(data).value;
      var s1 := CountRx(s, h.clientID, from, |data|);
      CountRxSameMaps(s, h.clientID, from, |data|);
      SameMapsSameInvariant(cfg, s, s1);
      if h.kind == TYPE_DATA {
        DataFaithful(cfg, s1, data, from, now, io);
        FaithfulInBoth(cfg, s, s1, data);
      } else if h.kind == TYPE_HEARTBEAT {
        HeartbeatOnlyAcks(cfg, s1, h.clientID, data[HEADER_SIZE..], from, now);
      }
    }
  }

  lemma FaithfulInBoth(cfg: Config, s: State, t: State, data: Bytes)
    requires SameMaps(s, t)
    ensures forall e :: FaithfulForward(cfg, t, data, e) ==> FaithfulForward(cfg, s, data, e)
    ensures forall e :: FaithfulTun(cfg, t, data, e) ==> FaithfulTun(cfg, s, data, e)
  {
    hide DecodeHeader, Source, Destination;
  }

  lemma HeartbeatOnlyAcks(cfg: Config, s: State, id: ClientID, payload: Bytes, from: UdpAddr, now: Time)
    ensures forall e :: e in OnHeartbeat(cfg, s, id, payload, from, now).effects ==> e.SendAck?
  {
    hide ParseHeartbeat, Admit, AckPacket;
  }

  /** io.order lists the addresses of the session, each once. */
  ghost predicate Enumerates(order: seq<UdpAddr>, addrs: map<UdpAddr, AddrInfo>) {
    && (forall a :: a in order <==> a in addrs)
    && forall i, j :: 0 <= i < j < |order| ==> order[i] != order[j]
  }

  /** The packet gets as far as sendToClient, for this client. */
  predicate SentOn(cfg: Config, s: State, h: Header, payload: Bytes, client: ClientID) {
    && !Observe(Lookup(s.dedup, h.clientID), h.seqNo, cfg.window).duplicate
    && Acceptable(s, h.clientID, payload)
    && Destination(payload) != cfg.serverIP
    && Destination(payload) in s.routes && s.routes[Destination(payload)] == client && client in s.sessions
  }

  /** Wherever the packet is sent on, the iteration order lists the addresses of its client. */
  ghost predicate OrderFits(cfg: Config, s: State, h: Header, payload: Bytes, io: Io) {
    forall client :: SentOn(cfg, s, h, payload, client) ==> Enumerates(io.order, s.sessions[client].addrs)
  }

  lemma OrderFitsAfterCount(cfg: Config, s: State, h: Header, payload: Bytes, io: Io, from: UdpAddr, n: nat)
    requires OrderFits(cfg, CountRx(s, h.clientID, from, n), h, payload, io)
    ensures OrderFits(cfg, s, h, payload, io)
  {
    hide Observe, Source, Destination;
    var t := CountRx(s, h.clientID, from, n);
    forall client | SentOn(cfg, s, h, payload, client) ensures Enumerates(io.order, s.sessions[client].addrs) {
      assert SentOn(cfg, t, h, payload, client);
      assert t.sessions[client].addrs.Keys == s.sessions[client].addrs.Keys;
    }
  }

  /** The one address a failover-mode session is written to: where its last data came from, else any. */
  function PreferredAddr(sess: Session, order: seq<UdpAddr>): UdpAddr
    requires order != []
  {
    if sess.lastDataAddr.Some? then sess.lastDataAddr.value else order[0]
  }

  /** What sendToClient does for a session that has addresses, in either mode. */
  ghost predicate Reached(sess: Session, io: Io, effects: seq<Effect>, d: ClientID, data: Bytes) {
    if sess.sendMode != SEND_MODE_FAILOVER then
      && (forall a :: a in sess.addrs && a in io.ok ==> WrittenTo(sess, io, effects, a, d, data))
      && forall e :: e in effects ==> e.Forward? && ReachesTarget(sess, io, io.order, e.to)
    else if io.order == [] then
      effects == []
    else
      var to := PreferredAddr(sess, io.order);
      && (if to in io.ok then WrittenTo(sess, io, effects, to, d, data) else effects == [])
      && forall e :: e in effects ==> e.Forward? && ReachesTarget(sess, io, [to], e.to)
  }

  lemma SendReaches(s: State, d: ClientID, data: Bytes, io: Io)
    requires d in s.sessions && Enumerates(io.order, s.sessions[d].addrs)
    ensures Reached(s.sessions[d], io, SendToClient(s, d, data, io).effects, d, data)
  {
    hide Fanout, Written;
    var sess := s.sessions[d];
    assert io.order != [] ==> io.order[0] in io.order && io.order[0] in sess.addrs;
    if sess.addrs != map[] {
      var targets := Targets(sess, io);
      FanoutForwards(sess, io, targets, d, data);
      if sess.sendMode == SEND_MODE_FAILOVER && io.order != [] {
        assert targets == [PreferredAddr(sess, io.order)];
        UnwritableSilent(sess, io, PreferredAddr(sess, io.order), d, data);
      }
    }
  }

  lemma UnwritableSilent(sess: Session, io: Io, to: UdpAddr, d: ClientID, data: Bytes)
    ensures to !in io.ok ==> Fanout(sess, io, [to], d, data) == []
  {
    assert Fanout(sess, io, [], d, data) == [];
    assert [to][..0] == [];
  }

  /**
   * Conversely, a fresh data packet from a registered source reaches the client that holds its destination: in
   * redundant mode every address the socket can write to, in failover mode exactly the preferred one.
   */
  lemma HolderIsReached(cfg: Config, s: State, data: Bytes, from: UdpAddr, now: Time, io: Io, d: ClientID)
    requires Consistent(cfg, s) && DecodeHeader(data).Success?
    requires var h, payload := DecodeHeader(data).value, data[HEADER_SIZE..];
      && h.kind == TYPE_DATA && Acceptable(s, h.clientID, payload)
      && !Observe(Lookup(s.dedup, h.clientID), h.seqNo, cfg.window).duplicate
      && d in s.sessions && s.sessions[d].virtualIP == Destination(payload)
      && Destination(payload) != UNSPECIFIED && Destination(payload) != cfg.serverIP
    requires Enumerates(io.order, s.sessions[d].addrs)
    ensures var sess := s.sessions[d];
            var known := if d == DecodeHeader(data).value.clientID then sess.(lastDataAddr := Some(from)) else sess;
            Reached(known, io, OnPacket(cfg, s, data, from, now, io).effects, d, data)
  {
    hide Observe, Source, Destination, DecodeHeader, Fanout, Written, SendToClient;
    var h, payload := DecodeHeader(data).value, data[HEADER_SIZE..];
    var dst := Destination(payload);
    assert SessionFollowsLease(s, d) && s.routes[dst] == d;
    var s1 := CountRx(s, h.clientID, from, |data|);
    var v := Observe(Lookup(s1.dedup, h.clientID), h.seqNo, cfg.window);
    var s2 := s1.(dedup := s1.dedup[h.clientID := v.window]);
    var s3 := s2.(sessions := s2.sessions[h.clientID := DataFrom(s2.sessions[h.clientID], from, now)]);
    assert s3.sessions[d].addrs.Keys == s.sessions[d].addrs.Keys;
    SendReaches(s3, d, data, io);
    assert OnPacket(cfg, s, data, from, now, io) == SendToClient(s3, d, data, io);
  }

  /**
   * An address the session is known by: a registered source address, the last data address, or where it just
   * sent from.
   */
  ghost predicate KnownAs(sess: Session, t: UdpAddr) { t in sess.addrs || sess.lastDataAddr == Some(t) }

  /** Every copy is addressed to the recipient as it is known, or to the ReplyPort on such a host. */
  lemma CopiesGoToRecipient(cfg: Config, s: State, data: Bytes, from: UdpAddr, now: Time, io: Io)
    requires DecodeHeader(data).Success? && DecodeHeader(data).value.kind == TYPE_DATA
    requires OrderFits(cfg, s, DecodeHeader(data).value, data[HEADER_SIZE..], io)
    ensures var next := OnPacket(cfg, s, data, from, now, io);
            forall e :: e in next.effects && e.Forward? ==>
              && e.client in next.state.sessions
              && var sess := next.state.sessions[e.client];
              && exists t :: KnownAs(sess, t) &&
                   (e.to == t || (sess.replyPort > 0 && e.to == UdpAddr(t.host, sess.replyPort)))
  {
    hide Observe, Source, Destination, DecodeHeader, Fanout, Written, Copies;
    var h, payload := DecodeHeader(data).value, data[HEADER_SIZE..];
    var s1 := CountRx(s, h.clientID, from, |data|);
    var v := Observe(Lookup(s1.dedup, h.clientID), h.seqNo, cfg.window);
    var s2 := s1.(dedup := s1.dedup[h.clientID := v.window]);
    if !v.duplicate && Acceptable(s2, h.clientID, payload) {
      var s3 := s2.(sessions := s2.sessions[h.clientID := DataFrom(s2.sessions[h.clientID], from, now)]);
      var dst := Destination(payload);
      if dst != cfg.serverIP && dst in s3.routes && s3.routes[dst] in s3.sessions {
        var d := s3.routes[dst];
        var sess := s3.sessions[d];
        assert SentOn(cfg, s, h, payload, d);
        assert sess.addrs.Keys == s.sessions[d].addrs.Keys;
        RouteForwards(cfg, s3, payload, data, io);
        assert forall t :: t in Targets(sess, io) ==> KnownAs(sess, t);
      }
    }
  }

  /** A packet from the server's TUN device goes, under client ID 0, to the holder of its destination only. */
  lemma TunFaithful(cfg: Config, s: State, payload: Bytes, io: Io)
    requires Consistent(cfg, s)
    ensures forall e :: e in OnTun(s, payload, io).effects ==>
      && e.Forward? && InnerIPv4(payload)
      && e.client in s.sessions && Destination(payload) == s.sessions[e.client].virtualIP
      && Destination(payload) in s.routes && s.routes[Destination(payload)] == e.client
      && DecodeHeader(e.packet) == Success(Header(VERSION1, TYPE_DATA, false, 0, s.seqNo))
      && e.packet[HEADER_SIZE..] == payload
  {
    hide DecodeHeader, HeaderBytes, Fanout, Written, Destination;
    if InnerIPv4(payload) && Destination(payload) in s.routes {
      var h := Header(VERSION1, TYPE_DATA, false, 0, s.seqNo);
      var packet := HeaderBytes(h) + payload;
      HeaderRoundTrip(h, payload);
      var id := s.routes[Destination(payload)];
      if id in s.sessions {
        RouteLeadsToHolder(cfg, s, Destination(payload));
        var s1 := s.(seqNo := (s.seqNo + 1) % TWO32);
        FanoutForwards(s1.sessions[id], io, Targets(s1.sessions[id], io), id, packet);
      }
    }
  }

  /** In the other direction, the holder of the destination gets every packet read from TUN. */
  lemma TunHolderIsReached(cfg: Config, s: State, payload: Bytes, io: Io, d: ClientID)
    requires Consistent(cfg, s) && InnerIPv4(payload) && d in s.sessions
    requires s.sessions[d].virtualIP == Destination(payload) != UNSPECIFIED
    requires Enumerates(io.order, s.sessions[d].addrs)
    ensures Reached(s.sessions[d], io, OnTun(s, payload, io).effects, d,
                    HeaderBytes(Header(VERSION1, TYPE_DATA, false, 0, s.seqNo)) + payload)
  {
    hide HeaderBytes, SendToClient, Destination;
    assert SessionFollowsLease(s, d);
    var s1 := s.(seqNo := (s.seqNo + 1) % TWO32);
    SendReaches(s1, d, HeaderBytes(Header(VERSION1, TYPE_DATA, false, 0, s.seqNo)) + payload, io);
  }
}
