/** internal/protocol/packet.go and the per-path heartbeat suffix written by the senders. */
module Packet {
  import opened Basics

  const HEADER_SIZE := 8
  const HEARTBEAT_SIZE := 16
  const ACK_SIZE := 8
  const VERSION1: Byte := 0x10

  const TYPE_DATA: Byte := 0
  const TYPE_HEARTBEAT: Byte := 1
  const TYPE_HEARTBEAT_ACK: Byte := 2

  const SEND_MODE_FAILOVER: Byte := 1

  const ACK_OK: Byte := 0
  const ACK_TEAM_KEY_MISMATCH: Byte := 1
  const ACK_CLIENT_ID_CONFLICT: Byte := 2

  datatype Error = BufferTooShort | VersionMismatch
  datatype Result<+T> = Success(value: T) | Failure(error: Error)

  datatype Header = Header(version: Byte, kind: Byte, priority: bool, clientID: ClientID, seqNo: UInt32)

  datatype PathRTT = PathRTT(name: Bytes, rttMs: UInt16, txBytes: UInt32, rxBytes: UInt32)

  /** The fixed part of a heartbeat; a missing VirtualIP is 0.0.0.0. */
  datatype Fixed = Fixed(virtualIP: IPv4, prefixLen: Byte, sendMode: Byte, replyPort: UInt16, teamKeyHash: Hash)

  type Hash = h: Bytes | |h| == 8 witness [0, 0, 0, 0, 0, 0, 0, 0]

  datatype Heartbeat = Heartbeat(fixed: Fixed, deviceName: Bytes, pathRTTs: seq<PathRTT>)

  datatype Ack = Ack(assignedIP: IPv4, prefixLen: Byte, status: Byte, mtu: UInt16)

  // ---- Big-endian numbers ----

  function PutU16(x: UInt16): (b: Bytes)
    ensures |b| == 2 && U16(b) == x
  {
    [x / 256, x % 256]
  }

  function U16(b: Bytes): UInt16
    requires |b| == 2
  {
    (b[0] as int) * 256 + b[1]
  }

  function PutU32(x: UInt32): (b: Bytes)
    ensures |b| == 4 && U32(b) == x
  {
    var b := PutU16(x / TWO16) + PutU16(x % TWO16);
    assert b[..2] == PutU16(x / TWO16) && b[2..] == PutU16(x % TWO16);
    b
  }

  function U32(b: Bytes): UInt32
    requires |b| == 4
  {
    (U16(b[..2]) as int) * TWO16 + U16(b[2..])
  }

  /** The four bytes as the source shifts them out. */
  lemma ShiftedBytes(x: UInt32)
    ensures x / 0x100_0000 < 256
    ensures PutU32(x) == [x / 0x100_0000, x / 0x1_0000 % 256, x / 256 % 256, x % 256]
  {
    assert x / TWO16 / 256 == x / 0x100_0000;
    assert x % TWO16 / 256 == x / 256 % 256;
    assert x % TWO16 % 256 == x % 256;
  }

  /** buf with x written at offset at. */
  function Spliced(buf: Bytes, at: nat, x: Bytes): (r: Bytes)
    requires at + |x| <= |buf|
    ensures |r| == |buf| && r[at..at + |x|] == x
    ensures forall k :: 0 <= k < |buf| ==> r[k] == if at <= k < at + |x| then x[k - at] else buf[k]
  {
    buf[..at] + x + buf[at + |x|..]
  }

  lemma SplicedNext(buf: Bytes, at: nat, x: Bytes, y: Bytes)
    requires at + |x| + |y| <= |buf|
    ensures Spliced(Spliced(buf, at, x), at + |x|, y) == Spliced(buf, at, x + y)
  {
    hide Spliced;
    var a, b := Spliced(Spliced(buf, at, x), at + |x|, y), Spliced(buf, at, x + y);
    forall k | 0 <= k < |buf| ensures a[k] == b[k] {}
  }

  /** Go's copy into buf[at..]: as much as fits. */
  method CopyInto(buf: array<Byte>, at: nat, src: Bytes) returns (n: nat)
    requires at <= buf.Length
    modifies buf
    ensures n == (if |src| <= buf.Length - at then |src| else buf.Length - at)
    ensures buf[..] == Spliced(old(buf[..]), at, src[..n])
  {
    n := if |src| <= buf.Length - at then |src| else buf.Length - at;
    for i := 0 to n
      invariant forall k :: 0 <= k < buf.Length ==>
        buf[k] == if at <= k < at + i then src[k - at] else old(buf[k])
    {
      buf[at + i] := src[i];
    }
  }

  // ---- Header ----

  function HeaderBytes(h: Header): (b: Bytes)
    ensures |b| == HEADER_SIZE
  {
    [h.version / 16 * 16 + h.kind % 16, if h.priority then 1 else 0] + PutU16(h.clientID) + PutU32(h.seqNo)
  }

  method EncodeHeader(buf: array<Byte>, h: Header)
    requires buf.Length >= HEADER_SIZE
    modifies buf
    ensures buf[..] == Spliced(old(buf[..]), 0, HeaderBytes(h))
  {
    buf[0] := h.version / 16 * 16 + h.kind % 16;
    buf[1] := 0;
    if h.priority {
      buf[1] := 1;
    }
    buf[2], buf[3] := h.clientID / 256, h.clientID % 256;
    ShiftedBytes(h.seqNo);
    buf[4], buf[5], buf[6], buf[7] :=
      h.seqNo / 0x100_0000, h.seqNo / 0x1_0000 % 256, h.seqNo / 256 % 256, h.seqNo % 256;
  }

  function DecodeHeader(buf: Bytes): (r: Result<Header>)
    ensures r.Success? ==> |buf| >= HEADER_SIZE && r.value.version == VERSION1 && r.value.kind < 16
  {
    if |buf| < HEADER_SIZE then Failure(BufferTooShort) else
    var version := buf[0] / 16 * 16;
    if version != VERSION1 then Failure(VersionMismatch)
    else Success(Header(version, buf[0] % 16, buf[1] % 2 != 0, U16(buf[2..4]), U32(buf[4..8])))
  }

  /** A header survives encoding exactly when it has the current version and a 4-bit type. */
  lemma HeaderRoundTrip(h: Header, rest: Bytes)
    ensures DecodeHeader(HeaderBytes(h) + rest) == Success(h) <==> h.version == VERSION1 && h.kind < 16
  {
    var b := HeaderBytes(h) + rest;
    assert b[2..4] == PutU16(h.clientID) && b[4..8] == PutU32(h.seqNo);
  }

  /** The number in network byte order. */
  predicate Holds16(b: Bytes, at: nat, x: int)
    requires at + 2 <= |b|
  {
    (b[at] as int) * 256 + (b[at + 1] as int) == x
  }

  predicate Holds32(b: Bytes, at: nat, x: int)
    requires at + 4 <= |b|
  {
    (b[at] as int) * 0x100_0000 + (b[at + 1] as int) * 0x1_0000 + (b[at + 2] as int) * 256 + (b[at + 3] as int) == x
  }

  /** The header on the wire: version and type share a byte, numbers are big-endian. */
  lemma HeaderLayout(h: Header)
    requires h.version % 16 == 0 && h.kind < 16
    ensures var b := HeaderBytes(h);
            && (b[0] as int) == (h.version as int) + (h.kind as int) && b[1] == (if h.priority then 1 else 0)
            && Holds16(b, 2, h.clientID)
            && Holds32(b, 4, h.seqNo)
  {
    NumberLayout(h.seqNo);
  }

  lemma NumberLayout(x: UInt32)
    ensures Holds32(PutU32(x), 0, x)
  {
    ShiftedBytes(x);
  }

  // ---- Heartbeat ----

  function FixedBytes(f: Fixed): (b: Bytes)
    ensures |b| == HEARTBEAT_SIZE
  {
    PutU32(f.virtualIP) + [f.prefixLen, f.sendMode] + PutU16(f.replyPort) + f.teamKeyHash
  }

  /** EncodeHeartbeatWithName: the fixed part, then as much of the name as fits. */
  method EncodeHeartbeatWithName(buf: array<Byte>, at: nat, f: Fixed, deviceName: Bytes) returns (n: nat)
    requires at + HEARTBEAT_SIZE <= buf.Length
    modifies buf
    ensures var room := buf.Length - at - HEARTBEAT_SIZE;
            n == HEARTBEAT_SIZE + (if |deviceName| <= room then |deviceName| else room)
    ensures buf[..] == Spliced(old(buf[..]), at, FixedBytes(f) + deviceName[..n - HEARTBEAT_SIZE])
  {
    hide Spliced, FixedBytes;
    ghost var before := buf[..];
    var k := CopyInto(buf, at, FixedBytes(f));
    assert FixedBytes(f)[..k] == FixedBytes(f);
    n := HEARTBEAT_SIZE;
    if deviceName != [] {
      k := CopyInto(buf, at + n, deviceName);
      SplicedNext(before, at, FixedBytes(f), deviceName[..k]);
      n := n + k;
    } else {
      assert FixedBytes(f) + deviceName[..0] == FixedBytes(f);
    }
  }

  /** What SendAllHeartbeat appends for one path; the length byte is truncated to 8 bits. */
  function PathSuffix(p: PathRTT): (b: Bytes)
    ensures |b| == |p.name| + 12
  {
    [0, |p.name| % 256] + p.name + PutU16(p.rttMs) + PutU32(p.txBytes) + PutU32(p.rxBytes)
  }

  /** The numbers of a path as they go on the wire. */
  function OnWire(name: Bytes, rttMs: nat, tx: nat, rx: nat): PathRTT {
    PathRTT(name, rttMs % TWO16, tx % TWO32, rx % TWO32)
  }

  /** A write at the running index of a buffer that is being filled. */
  method Append(buf: array<Byte>, at: nat, src: Bytes) returns (next: nat)
    requires at + |src| <= buf.Length
    modifies buf
    ensures next == at + |src| && buf[..next] == old(buf[..at]) + src
  {
    var n := CopyInto(buf, at, src);
    next := at + n;
  }

  method WriteSuffix(p: PathRTT) returns (suffix: array<Byte>)
    ensures fresh(suffix) && suffix[..] == PathSuffix(p)
  {
    hide PutU16, PutU32, Spliced;
    suffix := new Byte[1 + 1 + |p.name| + 2 + 4 + 4](_ => 0);
    var i := Append(suffix, 0, [0]);
    i := Append(suffix, i, [|p.name| % 256]);
    i := Append(suffix, i, p.name);
    i := Append(suffix, i, PutU16(p.rttMs));
    i := Append(suffix, i, PutU32(p.txBytes));
    i := Append(suffix, i, PutU32(p.rxBytes));
    assert suffix[..i] == suffix[..];
  }

  /** One heartbeat copy of SendAllHeartbeat. */
  method AppendPath(base: Bytes, name: Bytes, rttMs: nat, tx: nat, rx: nat) returns (pkt: array<Byte>)
    ensures fresh(pkt) && pkt[..] == base + PathSuffix(OnWire(name, rttMs, tx, rx))
  {
    hide PathSuffix;
    var suffix := WriteSuffix(OnWire(name, rttMs, tx, rx));
    ghost var s := suffix[..];
    pkt := new Byte[|base| + suffix.Length](_ => 0);
    var i := Append(pkt, 0, base);
    i := Append(pkt, i, suffix[..]);
    assert pkt[..i] == pkt[..];
  }

  /** The index of the first NUL, or the length if there is none. */
  function FirstNul(b: Bytes): (i: nat)
    ensures i <= |b| && 0 !in b[..i] && (i < |b| ==> b[i] == 0)
  {
    if b == [] || b[0] == 0 then 0 else 1 + FirstNul(b[1..])
  }

  /** The single path record after the separator, if complete. */
  function ParsePath(d: Bytes): seq<PathRTT> {
    if |d| >= 1 && 1 + (d[0] as int) + 2 + 4 + 4 <= |d| then
      var pos := 1 + (d[0] as int);
      [PathRTT(d[1..pos], U16(d[pos..pos + 2]), U32(d[pos + 2..pos + 6]), U32(d[pos + 6..pos + 10]))]
    else []
  }

  function ParseFixed(buf: Bytes): Fixed
    requires |buf| >= HEARTBEAT_SIZE
  {
    Fixed(U32(buf[0..4]), buf[4], buf[5], U16(buf[6..8]), buf[8..16])
  }

  /** The meaning of a heartbeat payload. */
  function ParseHeartbeat(buf: Bytes): Result<Heartbeat> {
    if |buf| < HEARTBEAT_SIZE then Failure(BufferTooShort) else
    var ext := buf[HEARTBEAT_SIZE..];
    var sep := FirstNul(ext);
    Success(Heartbeat(ParseFixed(buf), ext[..sep], if sep < |ext| then ParsePath(ext[sep + 1..]) else []))
  }

  method DecodeHeartbeat(buf: Bytes) returns (r: Result<Heartbeat>)
    ensures r == ParseHeartbeat(buf)
  {
    if |buf| < HEARTBEAT_SIZE {
      return Failure(BufferTooShort);
    }
    var name, paths: seq<PathRTT> := [], [];
    if |buf| > HEARTBEAT_SIZE {
      var ext := buf[HEARTBEAT_SIZE..];
      var sep := 0;
      while sep < |ext| && ext[sep] != 0
        invariant sep <= |ext| && sep + FirstNul(ext[sep..]) == FirstNul(ext)
      {
        assert ext[sep..][1..] == ext[sep + 1..];
        sep := sep + 1;
      }
      name := ext[..sep];
      if sep < |ext| {
        paths := ParsePath(ext[sep + 1..]);
      }
    }
    return Success(Heartbeat(ParseFixed(buf), name, paths));
  }

  lemma FixedRoundTrip(f: Fixed, rest: Bytes)
    ensures ParseFixed(FixedBytes(f) + rest) == f
  {
    var b := FixedBytes(f) + rest;
    assert b[0..4] == PutU32(f.virtualIP) && b[6..8] == PutU16(f.replyPort) && b[8..16] == f.teamKeyHash;
  }

  /** The fixed part of a heartbeat on the wire. */
  lemma FixedLayout(f: Fixed)
    ensures var b := FixedBytes(f);
            && Holds32(b, 0, f.virtualIP)
            && b[4] == f.prefixLen && b[5] == f.sendMode && Holds16(b, 6, f.replyPort)
            && forall k :: 0 <= k < 8 ==> b[8 + k] == f.teamKeyHash[k]
  {
    NumberLayout(f.virtualIP);
  }

  /** The per-path suffix on the wire: a NUL, the length of the name, the name, and three numbers. */
  lemma PathLayout(p: PathRTT)
    requires |p.name| < 256
    ensures var b, n := PathSuffix(p), |p.name|;
            && |b| == n + 12 && b[0] == 0 && b[1] == n && b[2..n + 2] == p.name
            && Holds16(b, n + 2, p.rttMs)
            && Holds32(b, n + 4, p.txBytes)
            && Holds32(b, n + 8, p.rxBytes)
  {
    NumberLayout(p.txBytes);
    NumberLayout(p.rxBytes);
  }

  /** A path record is read whatever follows it, and ignored if it is cut short. */
  lemma PathNeedsAllItsBytes(p: PathRTT, rest: Bytes, k: nat)
    requires |p.name| < 256 && k < |p.name| + 11
    ensures ParsePath(PathSuffix(p)[1..] + rest) == [p]
    ensures ParsePath(PathSuffix(p)[1..][..k]) == []
  {
    var d := PathSuffix(p)[1..];
    PathLayout(p);
    PathRoundTrip(p);
    var pos, e := 1 + |p.name|, d + rest;
    assert d[0] == |p.name| && e[0] == d[0];
    assert e[1..pos] == d[1..pos] && e[pos..pos + 2] == d[pos..pos + 2];
    assert e[pos + 2..pos + 6] == d[pos + 2..pos + 6] && e[pos + 6..pos + 10] == d[pos + 6..pos + 10];
  }

  /** Where the parts of a path record lie after the separator. */
  lemma PathParts(p: PathRTT)
    ensures var d, pos := PathSuffix(p)[1..], 1 + |p.name|;
            && |d| == pos + 10 && d[0] == |p.name| % 256 && d[1..pos] == p.name && d[pos..pos + 2] == PutU16(p.rttMs)
            && d[pos + 2..pos + 6] == PutU32(p.txBytes) && d[pos + 6..pos + 10] == PutU32(p.rxBytes)
  {
    hide PutU16, PutU32;
    var len: Bytes, rtt, tx, rx := [|p.name| % 256], PutU16(p.rttMs), PutU32(p.txBytes), PutU32(p.rxBytes);
    var d := PathSuffix(p)[1..];
    assert d == len + p.name + (rtt + tx + rx) == (len + p.name) + rtt + (tx + rx)
             == (len + p.name + rtt) + tx + rx == (len + p.name + rtt + tx) + rx + [];
    Middle(len, p.name, rtt + tx + rx);
    Middle(len + p.name, rtt, tx + rx);
    Middle(len + p.name + rtt, tx, rx);
    Middle(len + p.name + rtt + tx, rx, []);
  }

  lemma PathRoundTrip(p: PathRTT)
    ensures ParsePath(PathSuffix(p)[1..]) == [p] <==> |p.name| < 256
  {
    hide PathSuffix, PutU16, PutU32, U16, U32;
    PathParts(p);
    var d := PathSuffix(p)[1..];
    assert |ParsePath(d)| == 1 ==> |ParsePath(d)[0].name| == |p.name| % 256;
  }

  lemma {:induction false} FirstNulAtMost(b: Bytes, k: nat)
    requires k < |b| && b[k] == 0
    ensures FirstNul(b) <= k
    ensures 0 !in b[..k] ==> FirstNul(b) == k
  {
    if k > 0 && b[0] != 0 {
      FirstNulAtMost(b[1..], k - 1);
      assert b[1..][..k - 1] == b[..k][1..];
    }
  }

  lemma FirstNulOfName(name: Bytes, rest: Bytes)
    ensures FirstNul(name + [0] + rest) == |name| <==> 0 !in name
  {
    var b := name + [0] + rest;
    assert b[..|name|] == name;
    if 0 in name {
      var k :| 0 <= k < |name| && name[k] == 0;
      FirstNulAtMost(b, k);
    } else {
      FirstNulAtMost(b, |name|);
    }
  }

  /**
   * What one sender writes in three places, the receiver reads back: every field survives
   * if and only if the device name has no NUL and the interface name fits its length byte.
   */
  lemma HeartbeatRoundTrip(f: Fixed, deviceName: Bytes, p: PathRTT)
    ensures ParseHeartbeat(FixedBytes(f) + deviceName + PathSuffix(p)) == Success(Heartbeat(f, deviceName, [p]))
            <==> 0 !in deviceName && |p.name| < 256
  {
    hide FixedBytes, ParseFixed, ParsePath, FirstNul, PutU16, PutU32;
    var rest := PathSuffix(p)[1..];
    var buf := FixedBytes(f) + deviceName + PathSuffix(p);
    var ext := buf[HEARTBEAT_SIZE..];
    assert buf == FixedBytes(f) + (deviceName + PathSuffix(p));
    FixedRoundTrip(f, deviceName + PathSuffix(p));
    assert ext == deviceName + [0] + rest;
    FirstNulOfName(deviceName, rest);
    PathRoundTrip(p);
    if 0 !in deviceName {
      assert ext[|deviceName| + 1..] == rest;
      assert ext[..|deviceName|] == deviceName;
    }
  }

  /** A heartbeat without per-path data, as single-socket clients send it. */
  lemma BareHeartbeatRoundTrip(f: Fixed, deviceName: Bytes)
    ensures ParseHeartbeat(FixedBytes(f) + deviceName) == Success(Heartbeat(f, deviceName, [])) <==> 0 !in deviceName
  {
    var buf := FixedBytes(f) + deviceName;
    FixedRoundTrip(f, deviceName);
    assert buf[HEARTBEAT_SIZE..] == deviceName;
    var i := FirstNul(deviceName);
    assert i < |deviceName| ==> deviceName[i] in deviceName;
    assert i == |deviceName| ==> deviceName[..i] == deviceName;
  }

  // ---- Heartbeat ack ----

  function AckBytes(a: Ack): (b: Bytes)
    ensures |b| == ACK_SIZE
  {
    PutU32(a.assignedIP) + [a.prefixLen, a.status] + PutU16(a.mtu)
  }

  method EncodeHeartbeatAck(buf: array<Byte>, at: nat, a: Ack)
    requires at + ACK_SIZE <= buf.Length
    modifies buf
    ensures buf[..] == Spliced(old(buf[..]), at, AckBytes(a))
  {
    var k := CopyInto(buf, at, PutU32(a.assignedIP));
    buf[at + 4] := a.prefixLen;
    buf[at + 5] := a.status;
    buf[at + 6] := a.mtu / 256;
    buf[at + 7] := a.mtu % 256;
  }

  function DecodeHeartbeatAck(buf: Bytes): Result<Ack> {
    if |buf| < ACK_SIZE then Failure(BufferTooShort)
    else Success(Ack(U32(buf[0..4]), buf[4], buf[5], U16(buf[6..8])))
  }

  /** The ack on the wire. */
  lemma AckLayout(a: Ack)
    ensures var b := AckBytes(a);
            && Holds32(b, 0, a.assignedIP)
            && b[4] == a.prefixLen && b[5] == a.status && Holds16(b, 6, a.mtu)
  {
    NumberLayout(a.assignedIP);
  }

  lemma AckRoundTrip(a: Ack, rest: Bytes)
    ensures DecodeHeartbeatAck(AckBytes(a) + rest) == Success(a)
  {
    var b := AckBytes(a) + rest;
    assert b[0..4] == PutU32(a.assignedIP) && b[6..8] == PutU16(a.mtu);
  }
}
