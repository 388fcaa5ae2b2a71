/** Where the server knows its clients: every address of a session was the source of a packet under the client's ID. */
module Addresses {
  import opened Basics
  import opened Packet
  import opened Dedup
  import opened Checksum
  import opened ServerModel
  import opened ServerInvariants
  import opened ServerForwarding

  /** The server may write packets for client c to t. */
  ghost predicate Knows(s: State, c: ClientID, t: UdpAddr) { c in s.sessions && KnownAs(s.sessions[c], t) }

  /** Nothing was learned but, perhaps, that client id is at this address. */
  ghost predicate LearnsOnly(s: State, t: State, id: ClientID, from: UdpAddr) {
    && (forall c :: c in t.sessions ==> c in s.sessions || c == id)
    && forall c, a :: Knows(t, c, a) ==> Knows(s, c, a) || (c == id && a == from)
  }

  ghost predicate LearnsNothing(s: State, t: State) {
    t.sessions.Keys <= s.sessions.Keys && forall c, a :: Knows(t, c, a) ==> Knows(s, c, a)
  }

  lemma NothingThenOnly(s: State, t: State, u: State, id: ClientID, from: UdpAddr)
    requires LearnsNothing(s, t) && LearnsOnly(t, u, id, from)
    ensures LearnsOnly(s, u, id, from)
  {
    hide Knows;
  }

  lemma OnlyThenNothing(s: State, t: State, u: State, id: ClientID, from: UdpAddr)
    requires LearnsOnly(s, t, id, from) && LearnsNothing(t, u)
    ensures LearnsOnly(s, u, id, from)
  {
    hide Knows;
  }

  lemma CountLearnsNothing(s: State, id: ClientID, from: UdpAddr, n: nat)
    ensures LearnsNothing(s, CountRx(s, id, from, n))
  {}

  lemma HeardLearns(sess: Session, from: UdpAddr, paths: seq<PathRTT>, now: Time)
    ensures forall a :: KnownAs(HeardFrom(sess, from, paths, now), a) ==> KnownAs(sess, a) || a == from
  {
    hide StaleAddrs;
  }

  lemma AdmitLearns(cfg: Config, s: State, id: ClientID, hb: Heartbeat, from: UdpAddr, now: Time)
    ensures LearnsOnly(s, Admit(cfg, s, id, hb, from, now), id, from)
  {
    hide Register, Assigned, HeardFrom;
    if id in s.sessions {
      HeardLearns(Refresh(s.sessions[id], hb, now), from, hb.pathRTTs, now);
    } else {
      RegisterShape(cfg, s, id, hb, now);
      HeardLearns(Register(cfg, s, id, hb, now).sessions[id], from, hb.pathRTTs, now);
    }
  }

  lemma HeartbeatLearns(cfg: Config, s: State, id: ClientID, payload: Bytes, from: UdpAddr, now: Time)
    ensures var t := OnHeartbeat(cfg, s, id, payload, from, now).state;
            if ParseHeartbeat(payload).Success? then LearnsOnly(s, t, id, from) else t == s
  {
    hide ParseHeartbeat, Admit, AckPacket, Knows;
    if ParseHeartbeat(payload).Success? {
      var hb := ParseHeartbeat(payload).value;
      AdmitLearns(cfg, s, id, hb, from, now);
      SameSessionsLearn(s, OnHeartbeat(cfg, s, id, payload, from, now).state);
      SameSessionsLearn(Admit(cfg, s, id, hb, from, now), OnHeartbeat(cfg, s, id, payload, from, now).state);
    }
  }

  lemma SameSessionsLearn(s: State, t: State)
    ensures s.sessions == t.sessions ==> LearnsNothing(s, t)
  {}

  lemma SendLearnsNothing(s: State, id: ClientID, packet: Bytes, io: Io)
    ensures LearnsNothing(s, SendToClient(s, id, packet, io).state)
  {
    hide Written, Fanout, Targets;
  }

  lemma DataLearns(cfg: Config, s: State, h: Header, payload: Bytes, packet: Bytes, from: UdpAddr, now: Time, io: Io)
    ensures LearnsOnly(s, OnData(cfg, s, h, payload, packet, from, now, io).state, h.clientID, from)
  {
    hide Observe, SendToClient, Source, Destination;
    var v := Observe(Lookup(s.dedup, h.clientID), h.seqNo, cfg.window);
    var s1 := s.(dedup := s.dedup[h.clientID := v.window]);
    if !v.duplicate && Acceptable(s1, h.clientID, payload) {
      var s2 := s1.(sessions := s1.sessions[h.clientID := DataFrom(s1.sessions[h.clientID], from, now)]);
      assert LearnsOnly(s, s2, h.clientID, from);
      if Destination(payload) in s2.routes {
        SendLearnsNothing(s2, s2.routes[Destination(payload)], packet, io);
      }
    }
  }

  /** A packet from which the server may learn an address of client id. */
  predicate Introduces(data: Bytes, id: ClientID) {
    && DecodeHeader(data).Success? && DecodeHeader(data).value.clientID == id
    && (HeartbeatIn(data).Some? || DecodeHeader(data).value.kind == TYPE_DATA)
  }

  lemma PacketLearns(cfg: Config, s: State, data: Bytes, from: UdpAddr, now: Time, io: Io)
    ensures var t := OnPacket(cfg, s, data, from, now, io).state;
            && (forall c :: c in t.sessions ==> c in s.sessions || (HeartbeatIn(data).Some? && Introduces(data, c)))
            && forall c, a :: Knows(t, c, a) ==> Knows(s, c, a) || (a == from && Introduces(data, c))
  {
    hide DecodeHeader, ParseHeartbeat, OnHeartbeat, OnData, CountRx, Knows;
    if DecodeHeader(data).Success? {
      var h := DecodeHeader(data).value;
      var s1 := CountRx(s, h.clientID, from, |data|);
      CountLearnsNothing(s, h.clientID, from, |data|);
      if h.kind == TYPE_HEARTBEAT {
        HeartbeatLearns(cfg, s1, h.clientID, data[HEADER_SIZE..], from, now);
      } else if h.kind == TYPE_DATA {
        DataLearns(cfg, s1, h, data[HEADER_SIZE..], data, from, now, io);
        DataSameMaps(cfg, s1, h, data[HEADER_SIZE..], data, from, now, io);
      }
    }
  }

  lemma OtherStepsLearnNothing(cfg: Config, s: State, payload: Bytes, io: Io, now: Time)
    ensures LearnsNothing(s, OnTun(s, payload, io).state)
    ensures LearnsNothing(s, Cleanup(cfg, s, now))
    ensures LearnsNothing(s, Boot(s.saved))
  {
    hide SendToClient, Destination, HeaderBytes, Expired;
    if InnerIPv4(payload) && Destination(payload) in s.routes {
      var packet := HeaderBytes(Header(VERSION1, TYPE_DATA, false, 0, s.seqNo)) + payload;
      SendLearnsNothing(s.(seqNo := (s.seqNo + 1) % TWO32), s.routes[Destination(payload)], packet, io);
    }
  }

  /** Wherever the TUN packet is sent, the iteration order lists the addresses of its client. */
  ghost predicate TunOrderFits(s: State, payload: Bytes, io: Io) {
    InnerIPv4(payload) && Destination(payload) in s.routes && s.routes[Destination(payload)] in s.sessions ==>
      Enumerates(io.order, s.sessions[s.routes[Destination(payload)]].addrs)
  }

  /** Copies of TUN packets, too, go to the recipient as it is known or to its ReplyPort there. */
  lemma TunCopiesGoToRecipient(s: State, payload: Bytes, io: Io)
    requires TunOrderFits(s, payload, io)
    ensures forall e :: e in OnTun(s, payload, io).effects ==>
              && e.Forward? && e.client in s.sessions
              && var sess := s.sessions[e.client];
              && exists t :: KnownAs(sess, t) &&
                   (e.to == t || (sess.replyPort > 0 && e.to == UdpAddr(t.host, sess.replyPort)))
  {
    hide Destination, HeaderBytes, Fanout, Written, Copies;
    if InnerIPv4(payload) && Destination(payload) in s.routes && s.routes[Destination(payload)] in s.sessions {
      var id := s.routes[Destination(payload)];
      var sess := s.sessions[id];
      var packet := HeaderBytes(Header(VERSION1, TYPE_DATA, false, 0, s.seqNo)) + payload;
      FanoutForwards(sess, io, Targets(sess, io), id, packet);
      assert forall t :: t in Targets(sess, io) ==> KnownAs(sess, t);
    }
  }
}
