/** A client deleted by the administrator that comes back: the run in which it is not heard. */
module Deletion {
  import opened Basics
  import opened Packet
  import opened Dedup
  import opened Allocation
  import opened Checksum
  import opened ServerModel
  import opened ServerInvariants
  import opened Client
  import opened LeaseProtocol
  import opened ServerWindows

  lemma HeartbeatKeepsWindows(cfg: Config, s: State, m: Memory, id: ClientID, p: Profile, from: UdpAddr, now: Time,
        io: Io)
    ensures var t := OnPacket(cfg, s, HeartbeatPacket(m, id, p), from, now, io).state;
            t.dedup == s.dedup && t.pool.Keys <= s.pool.Keys + {id}
  {
    hide HeartbeatPacket, DecodeHeader, ParseHeartbeat, Admit, CountRx, AckPacket, Conflicts;
    var data := HeartbeatPacket(m, id, p);
    HeartbeatCarriesAddress(m, id, p, []);
    assert data + [] == data;
    var s1 := CountRx(s, id, from, |data|);
    CountRxSameMaps(s, id, from, |data|);
    CountKeepsWindows(s, id, from, |data|);
    AdmitKeepsWindows(cfg, s1, id, ParseHeartbeat(data[HEADER_SIZE..]).value, from, now);
  }

  /** A second copy of the latest packet is always dropped. */
  lemma SecondCopyIsDropped(win: Option<Window>, s: UInt32, w: WindowSize)
    ensures Observe(Some(Observe(win, s, w).window), s, w).duplicate
  {}

  /** What a data packet of a client leaves behind, and that it goes nowhere if it is taken for a duplicate. */
  lemma DataPacketSeen(cfg: Config, s: State, m: Memory, id: ClientID, inner: Bytes, from: UdpAddr, now: Time, io: Io)
    requires DataPacket(m, id, inner).Some?
    ensures var v := Observe(Lookup(s.dedup, id), m.seqNo, cfg.window);
            var next := OnPacket(cfg, s, DataPacket(m, id, inner).value, from, now, io);
            && Lookup(next.state.dedup, id) == Some(v.window) && SameMaps(s, next.state)
            && (v.duplicate ==> next.effects == [])
  {
    hide Observe, DataPacket, DecodeHeader, OnData, SameMaps, Source, Destination;
    var data := DataPacket(m, id, inner).value;
    DataPacketCorrect(m, id, inner);
    var h := DecodeHeader(data).value;
    var s1 := CountRx(s, id, from, |data|);
    CountRxSameMaps(s, id, from, |data|);
    DataSameMaps(cfg, s1, h, data[HEADER_SIZE..], data, from, now, io);
    DataSeen(cfg, s1, h, data[HEADER_SIZE..], data, from, now, io);
    SameMapsCompose(s, s1, OnPacket(cfg, s, data, from, now, io).state);
  }

  lemma SameMapsCompose(s: State, t: State, u: State)
    requires SameMaps(s, t) && SameMaps(t, u)
    ensures SameMaps(s, u)
  {}

  /** One exchange: the server and the client afterwards. */
  function Exchange(cfg: Config, s: State, m: Memory, id: ClientID, p: Profile, from: UdpAddr, now: Time, io: Io)
    : (State, Memory)
  {
    var next := OnPacket(cfg, s, HeartbeatPacket(m, id, p), from, now, io);
    (next.state,
     if |next.effects| == 1 && next.effects[0].SendAck? then AfterPacket(NextSeq(m), next.effects[0].packet)
     else NextSeq(m))
  }

  lemma FreshExchange(cfg: Config, s: State, id: ClientID, p: Profile, from: UdpAddr, now: Time, io: Io, inner: Bytes)
    requires Consistent(cfg, s) && Persisted(s) && id != 0 && p.teamKeyHash == cfg.teamKeyHash
    requires |inner| >= 20 && inner[0] / 16 == 4
    ensures var (t, m) := Exchange(cfg, s, INITIAL, id, p, from, now, io);
            && Consistent(cfg, t) && Persisted(t) && id in t.sessions && m.seqNo == 1
            && t.dedup == s.dedup && t.pool.Keys <= s.pool.Keys + {id}
            && DataPacket(m, id, inner).Some?
            && (Newcomer(cfg, s, id, INITIAL) ==> Acceptable(t, id, DataPacket(m, id, inner).value[HEADER_SIZE..]))
  {
    hide Consistent, Persisted, HeartbeatPacket, OnPacket, DataPacket, Newcomer, Acceptable, DecodeHeader,
         ParseHeartbeat, DecodeHeartbeatAck;
    var data := HeartbeatPacket(INITIAL, id, p);
    assert data + [] == data;
    ExchangeRegisters(cfg, s, INITIAL, id, p, [], from, now, io, inner);
    HeartbeatKeepsWindows(cfg, s, INITIAL, id, p, from, now, io);
    HeartbeatCarriesAddress(INITIAL, id, p, []);
    HeartbeatReceived(cfg, s, data, from, now, io);
  }

  /**
   * The client registers, sends a packet, is deleted by the administrator, starts anew and registers again; then its
   * first packet, acceptable as it is, goes nowhere.
   */
  predicate Silenced(cfg: Config, s: State, id: ClientID, p: Profile, from: UdpAddr, now: Time, io: Io, inner: Bytes) {
    var (s1, m1) := Exchange(cfg, s, INITIAL, id, p, from, now, io);
    && DataPacket(m1, id, inner).Some?
    && var s2 := OnPacket(cfg, s1, DataPacket(m1, id, inner).value, from, now, io).state;
    var (s3, m3) := Exchange(cfg, DeleteClient(s2, id), INITIAL, id, p, from, now, io);
    && DataPacket(m3, id, inner).Some?
    && Acceptable(s3, id, DataPacket(m3, id, inner).value[HEADER_SIZE..])
    && OnPacket(cfg, s3, DataPacket(m3, id, inner).value, from, now, io).effects == []
  }

  /** That is what happens to every client, as long as the subnet has room. */
  lemma DeletedClientIsSilenced(cfg: Config, s: State, id: ClientID, p: Profile, from: UdpAddr, now: Time, io: Io,
        inner: Bytes)
    requires Consistent(cfg, s) && Persisted(s) && id != 0 && p.teamKeyHash == cfg.teamKeyHash
    requires |inner| >= 20 && inner[0] / 16 == 4
    requires cfg.subnet.Some? && |s.pool| + 1 < Pow2(32 - cfg.subnet.value.ones) - 2
    ensures Silenced(cfg, s, id, p, from, now, io, inner)
  {
    hide Consistent, Persisted, Exchange, OnPacket, DataPacket, Acceptable, Pow2, Newcomer, Observe, DeleteClient,
         SameMaps;
    var (s1, m1) := Exchange(cfg, s, INITIAL, id, p, from, now, io);
    FreshExchange(cfg, s, id, p, from, now, io, inner);
    var s2 := OnPacket(cfg, s1, DataPacket(m1, id, inner).value, from, now, io).state;
    DataPacketSeen(cfg, s1, m1, id, inner, from, now, io);
    AfterDeletion(cfg, s, s1, s2, id);
    var (s3, m3) := Exchange(cfg, DeleteClient(s2, id), INITIAL, id, p, from, now, io);
    FreshExchange(cfg, DeleteClient(s2, id), id, p, from, now, io, inner);
    DataPacketSeen(cfg, s3, m3, id, inner, from, now, io);
    SecondCopyIsDropped(Lookup(s1.dedup, id), 1, cfg.window);
  }

  const EXAMPLE_KEY: Hash := [0, 0, 0, 0, 0, 0, 0, 0]

  /** A server at 10.99.0.1/24 with the default timeouts and window. */
  const EXAMPLE_CONFIG :=
    Config(0x0A63_0001, 24, Some(Prefix(0x0A63_0000, 24)), EXAMPLE_KEY, 15_000, 5_000, 1400, 4096, true)

  /** For instance the first client of a new server. */
  lemma DeletedClientExample(from: UdpAddr, io: Io)
    ensures Silenced(EXAMPLE_CONFIG, Boot(map[]), 1, Profile(0, 0, EXAMPLE_KEY, []), from, 0, io, [0x45] + Zeros(19))
  {
    hide Silenced;
    BootConsistent(EXAMPLE_CONFIG, map[]);
    assert Pow2(8) == 256;
    DeletedClientIsSilenced(EXAMPLE_CONFIG, Boot(map[]), 1, Profile(0, 0, EXAMPLE_KEY, []), from, 0, io,
                            [0x45] + Zeros(19));
  }

  function Zeros(n: nat): Bytes { seq(n, _ => 0) }

  /** A deleted client is a newcomer, but its window is still there. */
  lemma AfterDeletion(cfg: Config, s: State, s1: State, s2: State, id: ClientID)
    requires Consistent(cfg, s1) && Persisted(s1) && SameMaps(s1, s2) && id in s1.sessions
    requires s1.pool.Keys <= s.pool.Keys + {id}
    requires cfg.subnet.Some? && |s.pool| + 1 < Pow2(32 - cfg.subnet.value.ones) - 2
    ensures var t := DeleteClient(s2, id);
            && Consistent(cfg, t) && Persisted(t) && t.dedup == s2.dedup && Newcomer(cfg, t, id, INITIAL)
  {
    hide Consistent, Persisted, Newcomer, DeleteClient, Pow2;
    SameMapsSameInvariant(cfg, s1, s2);
    DeleteConsistent(cfg, s2, id);
    DeletedMaps(s2, id);
    SameMapsSameClients(s1, s2);
    NewcomerAgain(cfg, s, s2, DeleteClient(s2, id), id);
  }

  lemma SameMapsSameClients(s: State, t: State)
    requires SameMaps(s, t)
    ensures t.pool == s.pool && t.sessions.Keys == s.sessions.Keys
  {}

  lemma NewcomerAgain(cfg: Config, s: State, s2: State, t: State, id: ClientID)
    requires s2.pool.Keys <= s.pool.Keys + {id}
    requires t.pool == s2.pool - {id} && t.sessions == s2.sessions - {id}
    requires cfg.subnet.Some? && |s.pool| + 1 < Pow2(32 - cfg.subnet.value.ones) - 2
    ensures Newcomer(cfg, t, id, INITIAL)
  {
    hide Pow2;
    WithoutLease(s2.pool, id);
    FewerLeases(t.pool, s.pool);
    assert id !in t.pool && id !in t.sessions;
    assert |t.pool| + 1 < Pow2(32 - cfg.subnet.value.ones) - 2;
  }

  lemma WithoutLease(pool: map<ClientID, IPv4>, id: ClientID)
    ensures (pool - {id}).Keys == pool.Keys - {id}
  {}

  lemma DeletedMaps(s: State, id: ClientID)
    requires id in s.sessions
    ensures var t := DeleteClient(s, id);
            t.pool == s.pool - {id} && t.sessions == s.sessions - {id} && t.dedup == s.dedup
  {
    hide Entries;
  }

  lemma FewerLeases(a: map<ClientID, IPv4>, b: map<ClientID, IPv4>)
    requires a.Keys <= b.Keys
    ensures |a| <= |b|
  {
    assert |a| == |a.Keys| && |b| == |b.Keys|;
    assert b.Keys == a.Keys + (b.Keys - a.Keys);
  }
}
