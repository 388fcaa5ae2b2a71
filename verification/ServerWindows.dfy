/** What becomes of the deduplication windows over whole runs of the server. */
module ServerWindows {
  import opened Basics
  import opened Packet
  import opened Dedup
  import opened DedupTheory
  import opened Checksum
  import opened ServerModel
  import opened ServerInvariants
  import opened Registration

  /** Every window is an old one, or an old or new one after one more arrival. */
  ghost predicate WindowsMove(before: map<ClientID, Window>, after: map<ClientID, Window>, w: WindowSize) {
    forall c :: c in after ==> Lookup(before, c) == Some(after[c]) || MovedBy(before, after, c, w)
  }

  ghost predicate MovedBy(before: map<ClientID, Window>, after: map<ClientID, Window>, c: ClientID, w: WindowSize)
    requires c in after
  {
    exists k: UInt32 :: after[c] == Observe(Lookup(before, c), k, w).window
  }

  lemma AdmitKeepsWindows(cfg: Config, s: State, id: ClientID, hb: Heartbeat, from: UdpAddr, now: Time)
    ensures var t := Admit(cfg, s, id, hb, from, now);
            t.dedup == s.dedup && t.pool.Keys <= s.pool.Keys + {id}
  {
    hide Register, Assigned, HeardFrom;
    if id !in s.sessions { RegisterShape(cfg, s, id, hb, now); }
  }

  lemma CountKeepsWindows(s: State, id: ClientID, from: UdpAddr, n: nat)
    ensures CountRx(s, id, from, n).dedup == s.dedup
  {
    hide CountedRx;
  }

  lemma DataSeen(cfg: Config, s: State, h: Header, payload: Bytes, packet: Bytes, from: UdpAddr, now: Time, io: Io)
    ensures var v, next := Observe(Lookup(s.dedup, h.clientID), h.seqNo, cfg.window),
                           OnData(cfg, s, h, payload, packet, from, now, io);
            next.state.dedup == s.dedup[h.clientID := v.window] && (v.duplicate ==> next.effects == [])
  {
    hide Observe, Source, Destination, Fanout, Written, Targets;
  }

  lemma HeartbeatLeavesWindows(cfg: Config, s: State, id: ClientID, payload: Bytes, from: UdpAddr, now: Time)
    ensures OnHeartbeat(cfg, s, id, payload, from, now).state.dedup == s.dedup
  {
    hide ParseHeartbeat, Admit, AckPacket;
    if ParseHeartbeat(payload).Success? { AdmitKeepsWindows(cfg, s, id, ParseHeartbeat(payload).value, from, now); }
  }

  lemma PacketMovesWindows(cfg: Config, s: State, data: Bytes, from: UdpAddr, now: Time, io: Io)
    ensures WindowsMove(s.dedup, OnPacket(cfg, s, data, from, now, io).state.dedup, cfg.window)
  {
    hide DecodeHeader, OnHeartbeat, OnData, CountRx, Observe;
    if DecodeHeader(data).Success? {
      var h := DecodeHeader(data).value;
      CountKeepsWindows(s, h.clientID, from, |data|);
      HeartbeatLeavesWindows(cfg, CountRx(s, h.clientID, from, |data|), h.clientID, data[HEADER_SIZE..], from, now);
      DataSeen(cfg, CountRx(s, h.clientID, from, |data|), h, data[HEADER_SIZE..], data, from, now, io);
    }
  }

  lemma {:induction false} NotifyLeavesWindows(cfg: Config, s: State, addrs: seq<UdpAddr>, ip: IPv4)
    ensures Notify(cfg, s, addrs, ip).state.dedup == s.dedup
  {
    hide AckPacket;
    if addrs != [] { NotifyLeavesWindows(cfg, s, addrs[..|addrs| - 1], ip); }
  }

  lemma UpdateLeavesWindows(cfg: Config, s: State, id: ClientID, newIP: Option<IPv4>, io: Io)
    ensures UpdateDeviceIP(cfg, s, id, newIP, io).state.dedup == s.dedup
  {
    hide Notify, Entries;
    if MayUpdate(cfg, s, id, newIP) {
      var order := if id in s.sessions then io.order else [];
      NotifyLeavesWindows(cfg, Reassigned(cfg, s, id, newIP.value), order, newIP.value);
    }
  }

  lemma StepMovesWindows(cfg: Config, s: State, step: Step, now: Time)
    ensures WindowsMove(s.dedup, Apply(cfg, s, step, now).state.dedup, cfg.window)
  {
    hide OnPacket, OnTun, UpdateDeviceIP, Observe, ForgetsWindow;
    match step
    case Receive(data, from, io) => PacketMovesWindows(cfg, s, data, from, now, io);
    case ReadTun(payload, io) => TunLeavesWindows(s, payload, io);
    case Update(id, newIP, io) => UpdateLeavesWindows(cfg, s, id, newIP, io);
    case _ =>
      forall c ensures Lookup(Apply(cfg, s, step, now).state.dedup, c) in {None, Lookup(s.dedup, c)} {
        WindowAfter(cfg, s, step, c, now);
      }
  }

  lemma TunLeavesWindows(s: State, payload: Bytes, io: Io)
    ensures OnTun(s, payload, io).state.dedup == s.dedup
  {
    hide Written, Fanout, Targets, HeaderBytes, Destination;
  }

  // ---- Whole runs ----

  /** Every window is what some arrivals made of it since it was created. */
  ghost predicate AllHistories(dedup: map<ClientID, Window>, w: WindowSize) {
    forall c :: c in dedup ==> exists ks :: Continued(None, ks, w) == Some(dedup[c])
  }

  lemma MoveKeepsHistories(before: map<ClientID, Window>, after: map<ClientID, Window>, w: WindowSize)
    requires AllHistories(before, w) && WindowsMove(before, after, w)
    ensures AllHistories(after, w)
  {
    hide Observe;
    forall c | c in after ensures exists ks :: Continued(None, ks, w) == Some(after[c]) {
      if Lookup(before, c) != Some(after[c]) {
        var k: UInt32 :| after[c] == Observe(Lookup(before, c), k, w).window;
        var ks: seq<UInt32> := [];
        if c in before { ks :| Continued(None, ks, w) == Some(before[c]); }
        assert (ks + [k])[..|ks|] == ks;
        assert Continued(None, ks + [k], w) == Some(after[c]);
      }
    }
  }

  lemma {:induction false} RunHistories(cfg: Config, saved: map<ClientID, Lease>, events: seq<Event>)
    ensures AllHistories(Run(cfg, Boot(saved), events).dedup, cfg.window)
  {
    hide AllHistories, Apply, WindowsMove;
    if events == [] {
      NoHistories(cfg.window);
    } else {
      var n := |events| - 1;
      var before := Run(cfg, Boot(saved), events[..n]);
      RunHistories(cfg, saved, events[..n]);
      StepMovesWindows(cfg, before, events[n].step, events[n].now);
      MoveKeepsHistories(before.dedup, Apply(cfg, before, events[n].step, events[n].now).state.dedup, cfg.window);
    }
  }

  lemma NoHistories(w: WindowSize)
    ensures AllHistories(map[], w)
  {}

  /**
   * In every state of every run, the window of a client denotes the numbers heard from it since the window was
   * created, and those are what a client loses that is deleted and starts counting anew.
   */
  lemma DeletedInRunLoses(cfg: Config, saved: map<ClientID, Lease>, events: seq<Event>, id: ClientID)
    returns (heard: seq<UInt32>, t: Track)
    requires Divides(cfg.window) && id in Run(cfg, Boot(saved), events).dedup
    ensures var s := Run(cfg, Boot(saved), events);
            && Continued(None, heard, cfg.window) == Some(s.dedup[id])
            && Noted(heard, cfg.window) == Some(t) && Denotes(s.dedup[id], t, cfg.window)
            && forall ks, i: nat :: Restarted(ks) && i < |ks| ==>
                 (DroppedAt(Lookup(DeleteClient(s, id).dedup, id), ks, i, cfg.window) <==>
                    && !StartsOver(s.dedup[id].maxSeq, ks[0], cfg.window)
                    && ks[i] <= s.dedup[id].maxSeq && t.top - (s.dedup[id].maxSeq - ks[i]) in t.seen)
  {
    hide Denotes, DroppedAt, Restarted, StartsOver, DeleteClient, Run, Divides;
    RunHistories(cfg, saved, events);
    var s := Run(cfg, Boot(saved), events);
    heard :| Continued(None, heard, cfg.window) == Some(s.dedup[id]);
    RunDenotesNoted(heard, cfg.window);
    t := Noted(heard, cfg.window).value;
    forall ks, i: nat | Restarted(ks) && i < |ks|
      ensures DroppedAt(Lookup(DeleteClient(s, id).dedup, id), ks, i, cfg.window) <==>
              && !StartsOver(s.dedup[id].maxSeq, ks[0], cfg.window)
              && ks[i] <= s.dedup[id].maxSeq && t.top - (s.dedup[id].maxSeq - ks[i]) in t.seen
    {
      DeletedClientLoses(cfg, s, id, t, ks, i);
    }
  }
}
