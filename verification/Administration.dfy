/** What an administrator's operations achieve, who hears of them, and what they leave alone. */
module Administration {
  import opened Basics
  import opened Packet
  import opened Checksum
  import opened ServerModel
  import opened ServerInvariants
  import opened ServerForwarding
  import opened Registration
  import opened Client

  // ---- Moving a lease ----

  /** A refusal names a reason that applies, and an update without one moves the lease. */
  lemma RefusalHasReason(cfg: Config, s: State, id: ClientID, newIP: Option<IPv4>, io: Io)
    ensures match RefuseUpdate(cfg, s, id, newIP)
            case None =>
              && newIP.Some? && id in s.pool
              && UpdateDeviceIP(cfg, s, id, newIP, io).state.pool == s.pool[id := newIP.value]
              && newIP.value != cfg.serverIP && (cfg.subnet.Some? ==> cfg.subnet.value.Contains(newIP.value))
              && newIP.value !in (s.pool - {id}).Values
            case Some(e) =>
              && UpdateDeviceIP(cfg, s, id, newIP, io) == Next(s, [])
              && match e
                 case InvalidIP => newIP == None
                 case OutsideSubnet => newIP.Some? && cfg.subnet.Some? && !cfg.subnet.value.Contains(newIP.value)
                 case IsServerIP => newIP == Some(cfg.serverIP)
                 case NotFound => id !in s.pool
                 case InUse => newIP.Some? && newIP.value in (s.pool - {id}).Values
  {
    hide Entries, Notify;
    if MayUpdate(cfg, s, id, newIP) {
      var order := if id in s.sessions then io.order else [];
      NotifySameMaps(cfg, Reassigned(cfg, s, id, newIP.value), order, newIP.value);
    } else if newIP.Some? {
      if c :| c in s.pool && c != id && s.pool[c] == newIP.value { assert (s.pool - {id})[c] == newIP.value; }
    }
  }

  /** An OK ack with this address, the server's prefix length and MTU. */
  predicate Tells(cfg: Config, packet: Bytes, ip: IPv4) {
    AckIn(packet) == Some(Ack(ip, cfg.prefixLen, ACK_OK, cfg.mtu))
  }

  lemma {:induction false} NotifyTellsAll(cfg: Config, s: State, addrs: seq<UdpAddr>, ip: IPv4)
    ensures var next := Notify(cfg, s, addrs, ip);
            && next.state == s.(seqNo := next.state.seqNo) && |next.effects| == |addrs|
            && forall k :: 0 <= k < |addrs| ==>
                 next.effects[k].SendAck? && next.effects[k].to == addrs[k] && Tells(cfg, next.effects[k].packet, ip)
  {
    hide AckPacket, AckIn;
    if addrs != [] {
      var n := |addrs| - 1;
      NotifyTellsAll(cfg, s, addrs[..n], ip);
      AckReadBack(Notify(cfg, s, addrs[..n], ip).state.seqNo, Ack(ip, cfg.prefixLen, ACK_OK, cfg.mtu));
    }
  }

  /**
   * Moving the lease of a client that is online tells it so at every address, each once, and nobody else; moving the
   * lease of one that is not tells nobody.
   */
  lemma UpdateNotifies(cfg: Config, s: State, id: ClientID, newIP: Option<IPv4>, io: Io)
    requires id in s.sessions ==> Enumerates(io.order, s.sessions[id].addrs)
    ensures var effects := UpdateDeviceIP(cfg, s, id, newIP, io).effects;
            if RefuseUpdate(cfg, s, id, newIP).None? && id in s.sessions then
              && (forall e :: e in effects ==>
                    e.SendAck? && e.to in s.sessions[id].addrs && Tells(cfg, e.packet, newIP.value))
              && (forall a :: a in s.sessions[id].addrs ==>
                    exists k :: 0 <= k < |effects| && effects[k].SendAck? && effects[k].to == a)
              && (forall i, j :: 0 <= i < j < |effects| && effects[i].SendAck? && effects[j].SendAck? ==>
                    effects[i].to != effects[j].to)
            else effects == []
  {
    hide Notify, Reassigned, Tells;
    if MayUpdate(cfg, s, id, newIP) {
      var order := if id in s.sessions then io.order else [];
      NotifyTellsAll(cfg, Reassigned(cfg, s, id, newIP.value), order, newIP.value);
      var effects := UpdateDeviceIP(cfg, s, id, newIP, io).effects;
      if id in s.sessions {
        forall a | a in s.sessions[id].addrs
          ensures exists k :: 0 <= k < |effects| && effects[k].SendAck? && effects[k].to == a
        {
          assert a in io.order;
          var k :| 0 <= k < |io.order| && io.order[k] == a;
          assert effects[k].to == a;
        }
      }
    }
  }

  /** Lease, route and session of the client move together, and those of nobody else. */
  lemma UpdateMoves(cfg: Config, s: State, id: ClientID, ip: IPv4, io: Io)
    requires Consistent(cfg, s) && MayUpdate(cfg, s, id, Some(ip))
    ensures var t := UpdateDeviceIP(cfg, s, id, Some(ip), io).state;
            && t.pool == s.pool[id := ip] && ip in t.routes && t.routes[ip] == id
            && (s.pool[id] != ip ==> s.pool[id] !in t.routes)
            && (forall a :: a in s.routes && a !in {s.pool[id], ip} ==> a in t.routes && t.routes[a] == s.routes[a])
            && t.sessions.Keys == s.sessions.Keys && t.names == s.names && t.dedup == s.dedup
            && (forall c :: c in s.sessions && c != id ==> t.sessions[c] == s.sessions[c])
            && (id in s.sessions ==>
                  t.sessions[id] == s.sessions[id].(virtualIP := ip, prefixLen := cfg.prefixLen))
            && t.totalRx == s.totalRx && t.totalTx == s.totalTx
  {
    hide Consistent, Notify, Entries;
    NotifyTellsAll(cfg, Reassigned(cfg, s, id, ip), if id in s.sessions then io.order else [], ip);
  }

  /**
   * A client that hears of the update follows it: it holds the new address, and the server accepts what it sends from
   * there. What it frames before is refused.
   */
  lemma NotifiedClientFollows(cfg: Config, s: State, id: ClientID, ip: IPv4, io: Io, e: Effect, m: Memory, inner: Bytes)
    requires Consistent(cfg, s) && MayUpdate(cfg, s, id, Some(ip)) && id in s.sessions && ip != UNSPECIFIED
    requires Enumerates(io.order, s.sessions[id].addrs) && e in UpdateDeviceIP(cfg, s, id, Some(ip), io).effects
    requires |inner| >= 20 && inner[0] / 16 == 4
    ensures e.SendAck?
    ensures var t, after := UpdateDeviceIP(cfg, s, id, Some(ip), io).state, AfterPacket(m, e.packet);
            && after.virtualIP == ip && after.prefixLen == cfg.prefixLen && after.registered
            && DataPacket(after, id, inner).Some?
            && Acceptable(t, id, DataPacket(after, id, inner).value[HEADER_SIZE..])
            && (m.virtualIP != UNSPECIFIED ==>
                  && DataPacket(m, id, inner).Some?
                  && (Acceptable(t, id, DataPacket(m, id, inner).value[HEADER_SIZE..]) <==> m.virtualIP == ip))
  {
    hide UpdateDeviceIP, Consistent, DecodeHeader, DecodeHeartbeatAck, HeaderBytes, Rewritten, Source, MayUpdate,
         RefuseUpdate;
    assert RefuseUpdate(cfg, s, id, Some(ip)).None?;
    UpdateNotifies(cfg, s, id, Some(ip), io);
    UpdateMoves(cfg, s, id, ip, io);
    var after := AfterPacket(m, e.packet);
    DataPacketCorrect(after, id, inner);
    DataPacketCorrect(m, id, inner);
    KeepsVersion(inner, ip);
    if m.virtualIP != UNSPECIFIED { KeepsVersion(inner, m.virtualIP); }
  }

  lemma KeepsVersion(inner: Bytes, vip: IPv4)
    requires |inner| >= 20 && vip != UNSPECIFIED
    ensures |Rewritten(inner, vip)| == |inner| && Rewritten(inner, vip)[0] == inner[0]
  {
    hide Checksummed;
    RewriteCorrect(inner, vip);
    assert Rewritten(inner, vip)[..10][0] == inner[..10][0];
  }

  // ---- Deletion ----

  /** Nothing is left of the client's lease, name, session and address, and nobody else's is touched. */
  ghost predicate Gone(s: State, t: State, id: ClientID, ip: IPv4) {
    && t.pool == s.pool - {id} && t.names == s.names - {id} && id !in t.saved
    && id !in t.sessions
    && (forall c :: c in s.sessions && c != id ==> c in t.sessions && t.sessions[c] == s.sessions[c])
    && ip !in t.routes && (forall a :: a in s.routes && a != ip ==> a in t.routes && t.routes[a] == s.routes[a])
    && t.sessions.Keys <= s.sessions.Keys && t.routes.Keys <= s.routes.Keys
    && (forall c :: c in s.dedup && c != id ==> c in t.dedup && t.dedup[c] == s.dedup[c])
  }

  lemma DeletedDeviceIsGone(cfg: Config, s: State, id: ClientID)
    requires id in s.pool
    ensures Gone(s, DeleteDevice(s, id), id, s.pool[id])
    ensures id in s.sessions ==> id !in DeleteDevice(s, id).dedup
  {}

  lemma DeletedClientIsGone(cfg: Config, s: State, id: ClientID)
    requires id in s.sessions
    ensures Gone(s, DeleteClient(s, id), id, s.sessions[id].virtualIP)
  {}

  /** Without a lease there is no device to delete, without a session no client. */
  lemma NothingToDelete(s: State, id: ClientID)
    ensures id !in s.pool ==> DeleteDevice(s, id) == s
    ensures id !in s.sessions ==> DeleteClient(s, id) == s
  {}

  // ---- Restart ----

  /** A restarted server remembers leases and names, and nothing else. */
  lemma RestartRemembers(s: State)
    requires Persisted(s)
    ensures var t := Boot(s.saved);
            && t.pool == s.pool && t.saved == s.saved
            && (forall c :: c in t.names <==> c in s.pool && c in s.names && s.names[c] != [])
            && (forall c :: c in t.names ==> t.names[c] == s.names[c])
            && t.sessions == map[] && t.routes == map[] && t.dedup == map[] && t.seqNo == 0
  {}
}
