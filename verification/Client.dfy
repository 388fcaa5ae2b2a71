/** internal/client/client.go: the client's side of registration and of the data path. */
module Client {
  import opened Basics
  import opened Packet
  import opened Dedup
  import opened Checksum

  /** What a client process remembers; a fresh process starts from INITIAL. */
  datatype Memory = Memory(virtualIP: IPv4, prefixLen: Byte, serverMTU: UInt16, registered: bool, seqNo: UInt32)

  const INITIAL := Memory(UNSPECIFIED, 0, 0, false, 0)

  /** The settings a heartbeat reports besides the address. */
  datatype Profile = Profile(sendMode: Byte, replyPort: UInt16, teamKeyHash: Hash, deviceName: Bytes)

  function HeartbeatFields(m: Memory, p: Profile): Fixed {
    Fixed(m.virtualIP, m.prefixLen, p.sendMode, p.replyPort, p.teamKeyHash)
  }

  /** The heartbeat as sendHeartbeat builds it, before any per-path data is appended. */
  function HeartbeatPacket(m: Memory, id: ClientID, p: Profile): Bytes {
    HeaderBytes(Header(VERSION1, TYPE_HEARTBEAT, false, id, m.seqNo)) + FixedBytes(HeartbeatFields(m, p)) + p.deviceName
  }

  /** The memory after a heartbeat ack. */
  function AfterAck(m: Memory, payload: Bytes): Memory {
    match DecodeHeartbeatAck(payload)
    case Failure(_) => m
    case Success(ack) =>
      if ack.status != ACK_OK then m
      else m.(virtualIP := ack.assignedIP, prefixLen := ack.prefixLen, registered := true,
              serverMTU := if ack.mtu > 0 then ack.mtu else m.serverMTU)
  }

  /** The memory after any packet from the server. */
  function AfterPacket(m: Memory, data: Bytes): Memory {
    match DecodeHeader(data)
    case Failure(_) => m
    case Success(h) => if h.kind == TYPE_HEARTBEAT_ACK then AfterAck(m, data[HEADER_SIZE..]) else m
  }

  /** The packet sent for an inner packet read from TUN; others are skipped. */
  function DataPacket(m: Memory, id: ClientID, inner: Bytes): Option<Bytes> {
    if |inner| < 20 || inner[0] / 16 != 4 then None
    else Some(HeaderBytes(Header(VERSION1, TYPE_DATA, false, id, m.seqNo)) + Rewritten(inner, m.virtualIP))
  }

  function NextSeq(m: Memory): Memory { m.(seqNo := (m.seqNo + 1) % TWO32) }

  /** handleData: the deduplication windows afterwards, and what is written to TUN. */
  function Heard(windows: map<ClientID, Window>, hasTun: bool, h: Header, payload: Bytes, w: WindowSize)
    : (map<ClientID, Window>, Option<Bytes>)
  {
    var v := Observe(Lookup(windows, h.clientID), h.seqNo, w);
    (windows[h.clientID := v.window], if v.duplicate || !hasTun then None else Some(payload))
  }

  class VpnClient {
    const id: ClientID
    const profile: Profile
    const dedup: Deduplicator
    var virtualIP: IPv4
    var prefixLen: Byte
    var serverMTU: UInt16
    var registered: bool
    var seqNo: UInt32
    var hasTun: bool

    ghost predicate Valid()
      reads this, dedup, dedup.Repr
    {
      this !in dedup.Repr && dedup.Valid()
    }

    ghost function View(): Memory
      reads this
    {
      Memory(virtualIP, prefixLen, serverMTU, registered, seqNo)
    }

    constructor (id: ClientID, profile: Profile, window: int)
      requires window <= MAX_WINDOW_SIZE
      ensures Valid() && View() == INITIAL && this.id == id && this.profile == profile && !hasTun
      ensures dedup.windows == map[] && dedup.windowSize == if window <= 0 then DEFAULT_WINDOW_SIZE else window
    {
      this.id, this.profile := id, profile;
      dedup := new Deduplicator(window);
      virtualIP, prefixLen, serverMTU, registered, seqNo := UNSPECIFIED, 0, 0, false, 0;
      hasTun := false;
    }

    method SendHeartbeat() returns (packet: array<Byte>)
      modifies this`seqNo
      ensures fresh(packet) && packet[..] == HeartbeatPacket(old(View()), id, profile)
      ensures View() == NextSeq(old(View()))
    {
      hide HeaderBytes, FixedBytes;
      var name := profile.deviceName;
      var buf := new Byte[HEADER_SIZE + HEARTBEAT_SIZE + |name| + 256](_ => 0);
      EncodeHeader(buf, Header(VERSION1, TYPE_HEARTBEAT, false, id, seqNo));
      var n := EncodeHeartbeatWithName(buf, HEADER_SIZE,
                 Fixed(virtualIP, prefixLen, profile.sendMode, profile.replyPort, profile.teamKeyHash), name);
      seqNo := (seqNo + 1) % TWO32;
      var size := HEADER_SIZE + n;
      packet := new Byte[size](i requires 0 <= i < size <= buf.Length reads buf => buf[i]);
      assert packet[..] == buf[..HEADER_SIZE + n];
    }

    /** tunOk says whether creating the TUN device succeeds. */
    method HandleHeartbeatAck(payload: Bytes, tunOk: bool)
      modifies this
      ensures View() == AfterAck(old(View()), payload)
      ensures hasTun == (old(hasTun) || (tunOk && !old(registered) && registered))
    {
      var r := DecodeHeartbeatAck(payload);
      if r.Failure? {
        return;
      }
      var ack := r.value;
      if ack.status == ACK_OK {
        var wasRegistered := registered;
        virtualIP := ack.assignedIP;
        prefixLen := ack.prefixLen;
        if ack.mtu > 0 {
          serverMTU := ack.mtu;
        }
        registered := true;
        if !wasRegistered && !hasTun {
          hasTun := tunOk;
        }
      }
    }

    /** Returns what is written to TUN, if anything. */
    method HandleData(h: Header, payload: Bytes) returns (written: Option<Bytes>)
      requires Valid()
      modifies dedup.Repr
      ensures Valid() && fresh(dedup.Repr - old(dedup.Repr))
      ensures (dedup.windows, written) == Heard(old(dedup.windows), hasTun, h, payload, dedup.windowSize)
    {
      hide Observe;
      var duplicate := dedup.IsDuplicate(h.clientID, h.seqNo);
      if duplicate || !hasTun {
        return None;
      }
      return Some(payload);
    }

    /** One turn of tunReadLoop: n bytes were read into buf after the header space. */
    method FrameTunPacket(buf: array<Byte>, n: nat) returns (sent: Option<Bytes>)
      requires HEADER_SIZE + n <= buf.Length
      modifies this`seqNo, buf
      ensures sent == DataPacket(old(View()), id, old(buf[HEADER_SIZE..HEADER_SIZE + n]))
      ensures View() == if sent.Some? then NextSeq(old(View())) else old(View())
    {
      hide HeaderBytes, Checksummed, PutU32;
      if n < 20 {
        return None;
      }
      if buf[HEADER_SIZE] / 16 != 4 {
        return None;
      }
      RewriteSource(buf, n, virtualIP);
      ghost var rewritten := buf[..][HEADER_SIZE..HEADER_SIZE + n];
      var h := Header(VERSION1, TYPE_DATA, false, id, seqNo);
      EncodeHeader(buf, h);
      seqNo := (seqNo + 1) % TWO32;
      assert buf[..HEADER_SIZE + n] == HeaderBytes(h) + rewritten;
      sent := Some(buf[..HEADER_SIZE + n]);
    }
  }

  /** The source rewrite and checksum of tunReadLoop. */
  method RewriteSource(buf: array<Byte>, n: nat, vip: IPv4)
    requires n >= 20 && HEADER_SIZE + n <= buf.Length
    modifies buf
    ensures buf[..][HEADER_SIZE..HEADER_SIZE + n] == Rewritten(old(buf[HEADER_SIZE..HEADER_SIZE + n]), vip)
    ensures buf[..HEADER_SIZE] == old(buf[..HEADER_SIZE])
  {
    hide Checksummed, PutU32;
    if vip != UNSPECIFIED {
      ghost var inner := buf[HEADER_SIZE..HEADER_SIZE + n];
      var k := CopyInto(buf, HEADER_SIZE + 12, PutU32(vip));
      assert buf[HEADER_SIZE..HEADER_SIZE + n] == Spliced(inner, 12, PutU32(vip));
      RecalcIPv4Checksum(buf, HEADER_SIZE, HEADER_SIZE + n);
    }
  }

  /** What the server sees of a client's packet: its ID, a fresh number and, once registered, the leased source. */
  lemma DataPacketCorrect(m: Memory, id: ClientID, inner: Bytes)
    requires DataPacket(m, id, inner).Some?
    ensures var packet := DataPacket(m, id, inner).value;
            && DecodeHeader(packet) == Success(Header(VERSION1, TYPE_DATA, false, id, m.seqNo))
            && packet[HEADER_SIZE..] == Rewritten(inner, m.virtualIP)
            && (m.virtualIP != UNSPECIFIED ==> Source(packet[HEADER_SIZE..]) == m.virtualIP)
            && Destination(packet[HEADER_SIZE..]) == Destination(inner)
  {
    hide HeaderBytes, DecodeHeader, Rewritten, Source, Destination;
    HeaderRoundTrip(Header(VERSION1, TYPE_DATA, false, id, m.seqNo), Rewritten(inner, m.virtualIP));
    if m.virtualIP != UNSPECIFIED { RewriteCorrect(inner, m.virtualIP); } else { RewriteIdle(inner); }
  }

  /** Exactly the IPv4 packets that are read are framed, and what is framed is an IPv4 packet of the same length. */
  lemma FramesExactlyIPv4(m: Memory, id: ClientID, inner: Bytes)
    ensures DataPacket(m, id, inner).Some? <==> |inner| >= 20 && inner[0] / 16 == 4
    ensures DataPacket(m, id, inner).Some? ==>
              var packet := DataPacket(m, id, inner).value;
              |packet| == HEADER_SIZE + |inner| && packet[HEADER_SIZE] / 16 == 4
  {
    hide HeaderBytes, Checksummed;
    if DataPacket(m, id, inner).Some? && m.virtualIP != UNSPECIFIED {
      RewriteCorrect(inner, m.virtualIP);
      assert Rewritten(inner, m.virtualIP)[..10][0] == inner[..10][0];
    }
  }

  lemma RewriteIdle(inner: Bytes)
    requires |inner| >= 20
    ensures Rewritten(inner, UNSPECIFIED) == inner
  {}

  /** The server reads back the address a client remembers, with or without per-path data. */
  lemma HeartbeatCarriesAddress(m: Memory, id: ClientID, p: Profile, suffix: Bytes)
    ensures var packet := HeartbeatPacket(m, id, p) + suffix;
            && DecodeHeader(packet) == Success(Header(VERSION1, TYPE_HEARTBEAT, false, id, m.seqNo))
            && ParseHeartbeat(packet[HEADER_SIZE..]).Success?
            && ParseHeartbeat(packet[HEADER_SIZE..]).value.fixed ==
                 Fixed(m.virtualIP, m.prefixLen, p.sendMode, p.replyPort, p.teamKeyHash)
  {
    hide HeaderBytes, FixedBytes, DecodeHeader, ParseFixed, ParsePath, FirstNul;
    var h, f := Header(VERSION1, TYPE_HEARTBEAT, false, id, m.seqNo), HeartbeatFields(m, p);
    var rest := p.deviceName + suffix;
    var packet := HeartbeatPacket(m, id, p) + suffix;
    assert packet == HeaderBytes(h) + (FixedBytes(f) + rest);
    HeaderRoundTrip(h, FixedBytes(f) + rest);
    FixedRoundTrip(f, rest);
  }
}
