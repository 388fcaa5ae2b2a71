/** The relay server: handlers that change its maps in place, each proved against its function in ServerModel. */
module Server {
  import opened Basics
  import opened Packet
  import opened Dedup
  import opened Allocation
  import opened Checksum
  import opened ServerModel
  import opened ServerForwarding

  class RelayServer {
    const cfg: Config
    var sessions: map<ClientID, Session>
    var routeTable: map<IPv4, ClientID>
    var ipPool: map<ClientID, IPv4>
    var ipPoolNames: map<ClientID, Bytes>
    /** The IP pool file. */
    var poolFile: map<ClientID, Lease>
    const dedup: Deduplicator
    var seqNo: UInt32
    var totalRx: nat
    var totalTx: nat

    ghost predicate Valid()
      reads this, dedup, dedup.Repr
    {
      this !in dedup.Repr && dedup.Valid() && dedup.windowSize == cfg.window
    }

    ghost function View(): State
      reads this, dedup
    {
      State(sessions, routeTable, ipPool, ipPoolNames, poolFile, dedup.windows, seqNo, totalRx, totalTx)
    }

    /** New: empty maps, and the pool loaded from the file. */
    constructor (c: Config, saved: map<ClientID, Lease>)
      ensures Valid() && cfg == c && View() == Boot(saved) && fresh(dedup) && fresh(dedup.Repr)
    {
      cfg := c;
      dedup := new Deduplicator(c.window);
      sessions, routeTable, poolFile := map[], map[], saved;
      ipPool, ipPoolNames := map[], map[];
      seqNo, totalRx, totalTx := 0, 0, 0;
      new;
      LoadIPPool();
    }

    method LoadIPPool()
      requires ipPool == map[] && ipPoolNames == map[]
      modifies this`ipPool, this`ipPoolNames
      ensures ipPool == LoadedPool(poolFile) && ipPoolNames == LoadedNames(poolFile)
    {
      var todo := poolFile.Keys;
      while todo != {}
        invariant todo <= poolFile.Keys
        invariant ipPool == LoadedPool(poolFile - todo)
        invariant ipPoolNames == LoadedNames(poolFile - todo)
      {
        var c :| c in todo;
        ghost var done := poolFile - todo;
        todo := todo - {c};
        assert poolFile - todo == done[c := poolFile[c]];
        ipPool := ipPool[c := poolFile[c].ip];
        if poolFile[c].name != [] {
          ipPoolNames := ipPoolNames[c := poolFile[c].name];
        }
      }
      assert poolFile - {} == poolFile;
    }

    method SaveIPPool()
      modifies this`poolFile
      ensures View() == Saved(old(View()))
    {
      var entries: map<ClientID, Lease> := map[];
      var todo := ipPool.Keys;
      while todo != {}
        invariant todo <= ipPool.Keys
        invariant entries == Entries(ipPool - todo, ipPoolNames)
      {
        var c :| c in todo;
        entries := entries[c := Lease(ipPool[c], if c in ipPoolNames then ipPoolNames[c] else [])];
        todo := todo - {c};
      }
      assert ipPool - {} == ipPool;
      poolFile := entries;
    }

    method SendHeartbeatAck(to: UdpAddr, ip: IPv4, prefixLen: Byte, status: Byte) returns (out: seq<Effect>)
      modifies this`seqNo
      ensures Next(View(), out) == Acknowledge(cfg, old(View()), to, ip, prefixLen, status)
    {
      var buf := new Byte[HEADER_SIZE + ACK_SIZE](_ => 0);
      EncodeHeader(buf, Header(VERSION1, TYPE_HEARTBEAT_ACK, false, 0, seqNo));
      EncodeHeartbeatAck(buf, HEADER_SIZE, Ack(ip, prefixLen, status, cfg.mtu));
      assert buf[..] == AckPacket(seqNo, Ack(ip, prefixLen, status, cfg.mtu));
      seqNo := (seqNo + 1) % TWO32;
      out := [SendAck(to, buf[..])];
    }

    /** The lease of a client, allocating one if needed; None if the subnet is missing or exhausted. */
    method AllocateIP(id: ClientID, deviceName: Bytes) returns (ip: Option<IPv4>)
      modifies this
      ensures View() == Allocated(cfg, old(View()), id, deviceName)
      ensures ip == Choose(old(ipPool), id, cfg.subnet, cfg.serverIP)
    {
      hide FirstFree, Entries;
      if deviceName != [] {
        ipPoolNames := ipPoolNames[id := deviceName];
      }
      if id in ipPool {
        if deviceName != [] {
          SaveIPPool();
        }
        return Some(ipPool[id]);
      }
      if cfg.subnet.None? {
        return None;
      }
      SubnetFits(cfg.subnet.value);
      ip := FindFree(cfg.subnet.value, ipPool.Values + {cfg.serverIP});
      if ip.Some? {
        ipPool := ipPool[id := ip.value];
        SaveIPPool();
      }
    }

    /** The branch of handleHeartbeat for a client without a session. */
    method RegisterClient(id: ClientID, hb: Heartbeat, now: Time)
      modifies this
      ensures View() == Register(cfg, old(View()), id, hb, now)
    {
      hide Choose, Entries, Allocated;
      var assignedIP, assignedPrefix := hb.fixed.virtualIP, hb.fixed.prefixLen;
      if assignedIP == UNSPECIFIED {
        var lease := AllocateIP(id, hb.deviceName);
        if lease.Some? {
          assignedIP, assignedPrefix := lease.value, cfg.prefixLen;
        }
      }
      sessions := sessions[id := Session(assignedIP, assignedPrefix, hb.fixed.sendMode, hb.fixed.replyPort,
                                         hb.deviceName, map[], now, None, 0, 0)];
      if assignedIP != UNSPECIFIED {
        routeTable := routeTable[assignedIP := id];
        if id !in ipPool {
          ipPool := ipPool[id := assignedIP];
          if hb.deviceName != [] {
            ipPoolNames := ipPoolNames[id := hb.deviceName];
          }
          SaveIPPool();
        }
      }
    }

    /** The loop that drops other addresses recorded for the same interface name. */
    method RemoveStaleAddrs(addrs: map<UdpAddr, AddrInfo>, from: UdpAddr, name: Bytes)
      returns (r: map<UdpAddr, AddrInfo>)
      ensures r == addrs - StaleAddrs(addrs, from, name)
    {
      r := addrs;
      if name != [] {
        var todo := addrs.Keys;
        while todo != {}
          invariant todo <= addrs.Keys
          invariant r == addrs - (StaleAddrs(addrs, from, name) - todo)
        {
          var a :| a in todo;
          todo := todo - {a};
          if a != from && addrs[a].nic.name == name {
            r := r - {a};
          }
        }
      }
      assert StaleAddrs(addrs, from, name) - {} == StaleAddrs(addrs, from, name);
    }

    method UpdateAddr(id: ClientID, from: UdpAddr, paths: seq<PathRTT>, now: Time)
      requires id in sessions
      modifies this`sessions
      ensures sessions == old(sessions)[id := HeardFrom(old(sessions)[id], from, paths, now)]
    {
      var session := sessions[id];
      var addrs := session.addrs;
      var ai := if from in addrs then addrs[from] else AddrInfo(now, 0, NO_NIC);
      ai := ai.(lastSeen := now);
      if paths != [] {
        addrs := RemoveStaleAddrs(addrs, from, paths[0].name);
        ai := ai.(nic := paths[0]);
      }
      sessions := sessions[id := session.(addrs := addrs[from := ai])];
    }

    method HandleHeartbeat(id: ClientID, payload: Bytes, from: UdpAddr, now: Time) returns (out: seq<Effect>)
      modifies this
      ensures Next(View(), out) == OnHeartbeat(cfg, old(View()), id, payload, from, now)
    {
      hide Acknowledge, ParseHeartbeat, Register, HeardFrom;
      var r := DecodeHeartbeat(payload);
      if r.Failure? {
        return [];
      }
      var hb := r.value;
      if hb.fixed.teamKeyHash != cfg.teamKeyHash {
        out := SendHeartbeatAck(from, UNSPECIFIED, 0, ACK_TEAM_KEY_MISMATCH);
        return;
      }
      if id == 0 {
        return [];
      }
      var vip := hb.fixed.virtualIP;
      if id in sessions && vip != UNSPECIFIED && sessions[id].virtualIP != vip {
        out := SendHeartbeatAck(from, sessions[id].virtualIP, sessions[id].prefixLen, ACK_CLIENT_ID_CONFLICT);
        return;
      }
      if id !in sessions {
        RegisterClient(id, hb, now);
        RegisterHasSession(cfg, old(View()), id, hb, now);
      } else {
        sessions := sessions[id := Refresh(sessions[id], hb, now)];
      }
      UpdateAddr(id, from, hb.pathRTTs, now);
      out := SendHeartbeatAck(from, sessions[id].virtualIP, sessions[id].prefixLen, ACK_OK);
    }

    /** The addresses of a session in the order Go's map iteration happens to take. */
    method AddrList(addrs: map<UdpAddr, AddrInfo>) returns (order: seq<UdpAddr>)
      ensures Enumerates(order, addrs)
    {
      order := [];
      var todo := addrs.Keys;
      while todo != {}
        invariant todo <= addrs.Keys
        invariant forall a :: a in order <==> a in addrs && a !in todo
        invariant forall i, j :: 0 <= i < j < |order| ==> order[i] != order[j]
      {
        var a :| a in todo;
        order := order + [a];
        todo := todo - {a};
      }
    }

    /** The sendTo closure of sendToClient. */
    method WriteCopies(id: ClientID, packet: Bytes, to: UdpAddr, replyPort: UInt16, ok: set<UdpAddr>)
      returns (out: seq<Effect>)
      requires id in sessions && sessions[id].replyPort == replyPort
      modifies this`sessions, this`totalTx
      ensures var sent := if to in ok then |packet| else 0;
              && sessions == old(sessions)[id := old(sessions)[id].(txBytes := old(sessions)[id].txBytes + sent)]
              && totalTx == old(totalTx) + sent
      ensures forall io: Io :: io.ok == ok ==> out == Deliveries(Copies(old(sessions)[id], io, to), id, packet)
    {
      if to !in ok {
        return [];
      }
      var session := sessions[id];
      sessions := sessions[id := session.(txBytes := session.txBytes + |packet|)];
      totalTx := totalTx + |packet|;
      out := [Forward(to, id, packet)];
      if replyPort > 0 && replyPort != to.port {
        var variant := UdpAddr(to.host, replyPort);
        if variant in ok {
          out := out + [Forward(variant, id, packet)];
        }
      }
    }

    method WriteAll(id: ClientID, packet: Bytes, targets: seq<UdpAddr>, ok: set<UdpAddr>, ghost io: Io)
      returns (out: seq<Effect>)
      requires id in sessions && io.ok == ok
      modifies this`sessions, this`totalTx
      ensures out == Fanout(old(sessions)[id], io, targets, id, packet)
      ensures var session, sent := old(sessions)[id], Written(targets, io) * |packet|;
              && sessions == old(sessions)[id := session.(txBytes := session.txBytes + sent)]
              && totalTx == old(totalTx) + sent
    {
      hide Copies, Deliveries, Fanout, Written;
      FanoutEmpty(sessions[id], io, id, packet);
      ghost var session := sessions[id];
      var i := 0;
      out := [];
      while i < |targets|
        invariant 0 <= i <= |targets|
        invariant out == Fanout(session, io, targets[..i], id, packet)
        invariant var sent := Written(targets[..i], io) * |packet|;
                  && sessions == old(sessions)[id := session.(txBytes := session.txBytes + sent)]
                  && totalTx == old(totalTx) + sent
      {
        FanoutStep(session, io, targets, i, id, packet);
        var copies := WriteCopies(id, packet, targets[i], sessions[id].replyPort, ok);
        ghost var counted := session.(txBytes := session.txBytes + Written(targets[..i], io) * |packet|);
        CopiesIgnoreTx(session, counted, io, targets[i]);
        out := out + copies;
        i := i + 1;
      }
      assert targets[..i] == targets;
    }

    /** sendToClient; ok says which destinations the socket can write to. */
    method SendTo(id: ClientID, packet: Bytes, ok: set<UdpAddr>) returns (out: seq<Effect>, ghost io: Io)
      modifies this`sessions, this`totalTx
      ensures io.ok == ok && (id in old(sessions) ==> Enumerates(io.order, old(sessions)[id].addrs))
      ensures Next(View(), out) == SendToClient(old(View()), id, packet, io)
    {
      hide Fanout, Written;
      out, io := [], Io([], ok);
      if id !in sessions {
        return;
      }
      var session := sessions[id];
      var order := AddrList(session.addrs);
      io := Io(order, ok);
      if |order| == 0 {
        assert session.addrs.Keys == {};
        return;
      }
      assert order[0] in session.addrs;
      var targets := order;
      if session.sendMode == SEND_MODE_FAILOVER {
        targets := if session.lastDataAddr.Some? then [session.lastDataAddr.value] else order[..1];
      }
      out := WriteAll(id, packet, targets, ok, io);
    }

    /** The tail of handleData: the server's own TUN, or the client the route table names. */
    method Deliver(payload: Bytes, packet: Bytes, ok: set<UdpAddr>) returns (out: seq<Effect>, ghost io: Io)
      requires InnerIPv4(payload)
      modifies this`sessions, this`totalTx
      ensures io.ok == ok && Next(View(), out) == Route(cfg, old(View()), payload, packet, io)
      ensures var dst := Destination(payload);
              dst != cfg.serverIP && dst in routeTable && routeTable[dst] in old(sessions) ==>
                Enumerates(io.order, old(sessions)[routeTable[dst]].addrs)
    {
      hide SendToClient, Destination;
      out, io := [], Io([], ok);
      var dst := Destination(payload);
      if dst == cfg.serverIP {
        if cfg.hasTun {
          out := [ToTun(payload)];
        }
        return;
      }
      if dst !in routeTable {
        return;
      }
      out, io := SendTo(routeTable[dst], packet, ok);
    }

    method HandleData(h: Header, payload: Bytes, packet: Bytes, from: UdpAddr, now: Time, ok: set<UdpAddr>)
      returns (out: seq<Effect>, ghost io: Io)
      requires Valid()
      modifies this, dedup.Repr
      ensures Valid() && fresh(dedup.Repr - old(dedup.Repr)) && io.ok == ok
      ensures Next(View(), out) == OnData(cfg, old(View()), h, payload, packet, from, now, io)
      ensures OrderFits(cfg, old(View()), h, payload, io)
    {
      hide Observe, Route, Source;
      out, io := [], Io([], ok);
      var id := h.clientID;
      var duplicate := dedup.IsDuplicate(id, h.seqNo);
      if duplicate {
        return;
      }
      if id !in sessions {
        return;
      }
      if |payload| < 20 || payload[0] / 16 != 4 {
        return;
      }
      if Source(payload) != sessions[id].virtualIP {
        return;
      }
      sessions := sessions[id := DataFrom(sessions[id], from, now)];
      out, io := Deliver(payload, packet, ok);
    }

    method HandlePacket(data: Bytes, from: UdpAddr, now: Time, ok: set<UdpAddr>)
      returns (out: seq<Effect>, ghost io: Io)
      requires Valid()
      modifies this, dedup.Repr
      ensures Valid() && fresh(dedup.Repr - old(dedup.Repr)) && io.ok == ok
      ensures Next(View(), out) == OnPacket(cfg, old(View()), data, from, now, io)
      ensures DecodeHeader(data).Success? && DecodeHeader(data).value.kind == TYPE_DATA ==>
        OrderFits(cfg, old(View()), DecodeHeader(data).value, data[HEADER_SIZE..], io)
    {
      hide OnData, OnHeartbeat, OrderFits;
      out, io := [], Io([], ok);
      var r := DecodeHeader(data);
      if r.Failure? {
        return;
      }
      var h := r.value;
      totalRx := totalRx + |data|;
      if h.clientID in sessions {
        var session := sessions[h.clientID];
        session := session.(rxBytes := session.rxBytes + |data|);
        if from in session.addrs {
          var ai := session.addrs[from];
          session := session.(addrs := session.addrs[from := ai.(rxBytes := ai.rxBytes + |data|)]);
        }
        sessions := sessions[h.clientID := session];
      }
      if h.kind == TYPE_HEARTBEAT {
        out := HandleHeartbeat(h.clientID, data[HEADER_SIZE..], from, now);
      } else if h.kind == TYPE_DATA {
        out, io := HandleData(h, data[HEADER_SIZE..], data, from, now, ok);
        OrderFitsAfterCount(cfg, old(View()), h, data[HEADER_SIZE..], io, from, |data|);
      }
    }

    /** One packet read from the TUN device. */
    method ForwardFromTun(payload: Bytes, ok: set<UdpAddr>) returns (out: seq<Effect>, ghost io: Io)
      modifies this
      ensures io.ok == ok && Next(View(), out) == OnTun(old(View()), payload, io)
      ensures var routes, all := old(routeTable), old(sessions);
              InnerIPv4(payload) && Destination(payload) in routes && routes[Destination(payload)] in all ==>
                Enumerates(io.order, all[routes[Destination(payload)]].addrs)
    {
      hide SendToClient, HeaderBytes, Destination;
      out, io := [], Io([], ok);
      if |payload| < 20 || payload[0] / 16 != 4 {
        return;
      }
      var dst := Destination(payload);
      if dst !in routeTable {
        return;
      }
      var packet := HeaderBytes(Header(VERSION1, TYPE_DATA, false, 0, seqNo)) + payload;
      seqNo := (seqNo + 1) % TWO32;
      out, io := SendTo(routeTable[dst], packet, ok);
    }

    /** The inner loop of cleanup. */
    method DropOldAddrs(session: Session, now: Time) returns (addrs: map<UdpAddr, AddrInfo>)
      ensures addrs == FreshAddrs(cfg, session, now)
    {
      addrs := session.addrs;
      var todo := addrs.Keys;
      while todo != {}
        invariant todo <= session.addrs.Keys
        invariant forall a :: a in addrs <==>
          a in session.addrs && (a in todo || now - session.addrs[a].lastSeen <= cfg.addrTimeout)
        invariant forall a :: a in addrs ==> addrs[a] == session.addrs[a]
      {
        var a :| a in todo;
        todo := todo - {a};
        if now - addrs[a].lastSeen > cfg.addrTimeout {
          addrs := addrs - {a};
        }
      }
    }

    /** One turn of cleanup's session loop. */
    method ExpireSession(c: ClientID, now: Time) returns (expired: bool)
      requires c in sessions
      modifies this`sessions
      ensures expired == Expired(cfg, old(sessions)[c], now)
      ensures sessions == Swept(cfg, old(sessions), {c}, now)
    {
      hide FreshAddrs;
      var session := sessions[c];
      var addrs := DropOldAddrs(session, now);
      sessions := sessions[c := session.(addrs := addrs)];
      expired := |addrs| == 0 && now - session.lastSeen > cfg.clientTimeout;
      assert |addrs| == 0 ==> addrs.Keys == {};
      if expired {
        sessions := sessions - {c};
      }
    }

    /** What cleanup does under the session lock; returns the expired sessions with their addresses. */
    method ExpireSessions(now: Time) returns (gone: map<ClientID, IPv4>)
      modifies this`sessions
      ensures sessions == Swept(cfg, old(sessions), old(sessions).Keys, now)
      ensures gone.Keys == ExpiredIDs(cfg, old(View()), now)
      ensures forall c :: c in gone ==> gone[c] == old(sessions)[c].virtualIP
    {
      hide Swept, Expired;
      ghost var all := sessions;
      gone := map[];
      var todo := sessions.Keys;
      SweptNone(cfg, all, now);
      while todo != {}
        invariant todo <= all.Keys
        invariant sessions == Swept(cfg, all, all.Keys - todo, now)
        invariant forall c :: c in gone <==> c in all && c !in todo && Expired(cfg, all[c], now)
        invariant forall c :: c in gone ==> gone[c] == all[c].virtualIP
      {
        var c :| c in todo;
        SweptStep(cfg, all, all.Keys - todo, c, now);
        assert all.Keys - (todo - {c}) == all.Keys - todo + {c};
        var ip := sessions[c].virtualIP;
        var expired := ExpireSession(c, now);
        if expired {
          gone := gone[c := ip];
        }
        todo := todo - {c};
      }
      assert all.Keys - {} == all.Keys;
    }

    method ForgetSession(c: ClientID, ip: IPv4)
      requires Valid()
      modifies this`routeTable, dedup
      ensures Valid() && dedup.Repr == old(dedup.Repr)
      ensures routeTable == old(routeTable) - {ip} && dedup.windows == old(dedup.windows) - {c}
    {
      routeTable := routeTable - {ip};
      dedup.Reset(c);
    }

    /** The route and dedup clean-up after the session lock is released. */
    method ForgetSessions(gone: map<ClientID, IPv4>)
      requires Valid()
      modifies this`routeTable, dedup
      ensures Valid() && dedup.Repr == old(dedup.Repr)
      ensures routeTable == old(routeTable) - gone.Values && dedup.windows == old(dedup.windows) - gone.Keys
    {
      hide Valid;
      var todo := gone.Keys;
      ghost var done: map<ClientID, IPv4> := map[];
      while todo != {}
        invariant Valid() && dedup.Repr == old(dedup.Repr)
        invariant todo <= gone.Keys && done == gone - todo
        invariant routeTable == old(routeTable) - done.Values
        invariant dedup.windows == old(dedup.windows) - done.Keys
      {
        var c :| c in todo;
        todo := todo - {c};
        ValuesGrow(done, c, gone[c]);
        done := done[c := gone[c]];
        ForgetSession(c, gone[c]);
      }
      assert gone - {} == gone;
    }

    method CleanUp(now: Time)
      requires Valid()
      modifies this, dedup
      ensures Valid() && dedup.Repr == old(dedup.Repr)
      ensures View() == Cleanup(cfg, old(View()), now)
    {
      hide Expired, FreshAddrs;
      ghost var s := View();
      var gone := ExpireSessions(now);
      assert gone.Values == set c | c in ExpiredIDs(cfg, s, now) :: s.sessions[c].virtualIP;
      assert sessions == Cleanup(cfg, s, now).sessions;
      ForgetSessions(gone);
    }

    method InUse(id: ClientID, ip: IPv4) returns (r: bool)
      ensures r <==> exists c :: c in ipPool && c != id && ipPool[c] == ip
    {
      var todo := ipPool.Keys;
      while todo != {}
        invariant todo <= ipPool.Keys
        invariant forall c :: c in ipPool && c !in todo && c != id ==> ipPool[c] != ip
      {
        var c :| c in todo;
        if c != id && ipPool[c] == ip {
          return true;
        }
        todo := todo - {c};
      }
      return false;
    }

    method UpdateIP(id: ClientID, newIP: Option<IPv4>) returns (err: Option<AdminError>, out: seq<Effect>, ghost io: Io)
      modifies this
      ensures err == RefuseUpdate(cfg, old(View()), id, newIP)
      ensures id in old(sessions) ==> Enumerates(io.order, old(sessions)[id].addrs)
      ensures Next(View(), out) == UpdateDeviceIP(cfg, old(View()), id, newIP, io)
    {
      hide Entries, Acknowledge;
      var order := [];
      if id in sessions {
        order := AddrList(sessions[id].addrs);
      }
      err, out, io := None, [], Io(order, {});
      if newIP.None? {
        err := Some(InvalidIP);
        return;
      }
      if cfg.subnet.Some? && !cfg.subnet.value.Contains(newIP.value) {
        err := Some(OutsideSubnet);
        return;
      }
      if newIP.value == cfg.serverIP {
        err := Some(IsServerIP);
        return;
      }
      if id !in ipPool {
        err := Some(NotFound);
        return;
      }
      var inUse := InUse(id, newIP.value);
      if inUse {
        err := Some(AdminError.InUse);
        return;
      }
      var oldIP := ipPool[id];
      ipPool := ipPool[id := newIP.value];
      SaveIPPool();
      routeTable := (routeTable - {oldIP})[newIP.value := id];
      if id in sessions {
        sessions := sessions[id := sessions[id].(virtualIP := newIP.value, prefixLen := cfg.prefixLen)];
      }
      out := NotifyAll(order, newIP.value);
    }

    method NotifyAll(addrs: seq<UdpAddr>, ip: IPv4) returns (out: seq<Effect>)
      modifies this`seqNo
      ensures Next(View(), out) == Notify(cfg, old(View()), addrs, ip)
    {
      hide Acknowledge;
      out := [];
      var i := 0;
      while i < |addrs|
        invariant 0 <= i <= |addrs|
        invariant Next(View(), out) == Notify(cfg, old(View()), addrs[..i], ip)
      {
        assert addrs[..i + 1][..i] == addrs[..i];
        var ack := SendHeartbeatAck(addrs[i], ip, cfg.prefixLen, ACK_OK);
        out := out + ack;
        i := i + 1;
      }
      assert addrs[..i] == addrs;
    }

    method RemoveDevice(id: ClientID) returns (err: Option<AdminError>)
      requires Valid()
      modifies this, dedup.Repr
      ensures Valid() && dedup.Repr == old(dedup.Repr)
      ensures View() == DeleteDevice(old(View()), id)
      ensures err == if id in old(ipPool) then None else Some(NotFound)
    {
      hide Entries;
      if id !in ipPool {
        return Some(NotFound);
      }
      err := None;
      var oldIP := ipPool[id];
      ipPool := ipPool - {id};
      ipPoolNames := ipPoolNames - {id};
      SaveIPPool();
      routeTable := routeTable - {oldIP};
      if id in sessions {
        sessions := sessions - {id};
        dedup.Reset(id);
      }
    }

    method RemoveClient(id: ClientID) returns (err: Option<AdminError>)
      modifies this
      ensures View() == DeleteClient(old(View()), id)
      ensures err == if id in old(sessions) then None else Some(NotFound)
    {
      hide Entries;
      if id !in sessions {
        return Some(NotFound);
      }
      err := None;
      routeTable := routeTable - {sessions[id].virtualIP};
      sessions := sessions - {id};
      ipPool := ipPool - {id};
      ipPoolNames := ipPoolNames - {id};
      SaveIPPool();
    }
  }

  lemma ValuesGrow(m: map<ClientID, IPv4>, c: ClientID, ip: IPv4)
    requires c !in m
    ensures m[c := ip].Values == m.Values + {ip}
  {
    assert forall d :: d in m ==> m[c := ip][d] == m[d];
    assert m[c := ip][c] == ip;
  }

  /** The sessions after cleanup's loop has visited the clients in done. */
  function Swept(cfg: Config, all: map<ClientID, Session>, done: set<ClientID>, now: Time): map<ClientID, Session> {
    map c | c in all && !(c in done && Expired(cfg, all[c], now)) ::
      if c in done then all[c].(addrs := FreshAddrs(cfg, all[c], now)) else all[c]
  }

  lemma SweptNone(cfg: Config, all: map<ClientID, Session>, now: Time)
    ensures Swept(cfg, all, all.Keys - all.Keys, now) == all
  {}

  lemma SweptStep(cfg: Config, all: map<ClientID, Session>, done: set<ClientID>, c: ClientID, now: Time)
    requires c in all && c !in done
    ensures c in Swept(cfg, all, done, now) && Swept(cfg, all, done, now)[c] == all[c]
    ensures Swept(cfg, Swept(cfg, all, done, now), {c}, now) == Swept(cfg, all, done + {c}, now)
  {
    hide Expired, FreshAddrs;
  }

  lemma FanoutStep(sess: Session, io: Io, targets: seq<UdpAddr>, i: nat, id: ClientID, packet: Bytes)
    requires i < |targets|
    ensures Fanout(sess, io, targets[..i + 1], id, packet)
         == Fanout(sess, io, targets[..i], id, packet) + Deliveries(Copies(sess, io, targets[i]), id, packet)
    ensures Written(targets[..i + 1], io) * |packet|
         == Written(targets[..i], io) * |packet| + if targets[i] in io.ok then |packet| else 0
  {
    assert targets[..i + 1][..i] == targets[..i] && targets[..i + 1][i] == targets[i];
    OneMore(Written(targets[..i], io), |packet|);
  }

  lemma FanoutEmpty(sess: Session, io: Io, id: ClientID, packet: Bytes)
    ensures forall t: seq<UdpAddr> :: t == [] ==>
      Fanout(sess, io, t, id, packet) == [] && Written(t, io) * |packet| == 0
  {}

  lemma CopiesIgnoreTx(a: Session, b: Session, io: Io, to: UdpAddr)
    requires a.replyPort == b.replyPort
    ensures Copies(a, io, to) == Copies(b, io, to)
  {}

  lemma RegisterHasSession(cfg: Config, s: State, id: ClientID, hb: Heartbeat, now: Time)
    ensures id in Register(cfg, s, id, hb, now).sessions
  {}
}
