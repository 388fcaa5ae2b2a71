/**
 * End-to-end delivery: senders, the relay with whatever it does to its own state, and a receiver.
 * Copies multiply on redundant paths, on the way to several addresses of the receiver and to its
 * ReplyPort, and whenever the server's own deduplication is reset.
 */
module Delivery {
  import opened Basics
  import opened Packet
  import opened Dedup
  import opened DedupTheory
  import opened Checksum
  import opened ServerModel
  import opened ServerForwarding
  import opened Client

  /** A copy of the n-th packet of a sender; numbers are unbounded, the header carries them mod 2^32. */
  datatype Copy = Copy(sender: ClientID, n: int, data: Bytes)

  /** What a receiver wrote to its TUN device. */
  datatype Delivered = Delivered(sender: ClientID, n: int, payload: Bytes)

  /** A packet that reached the receiver, and whether it had a TUN device by then. */
  datatype Arrival = Arrival(sender: ClientID, n: int, tun: bool)

  /** log records, for the statement only, what reached the receiver. */
  datatype Receiver = Receiver(hasTun: bool, windows: map<ClientID, Window>, log: seq<Arrival>, written: seq<Delivered>)

  /** A client's memory; next is its counter, unwrapped: the number of its next packet, restarts included. */
  datatype Sender = Sender(memory: Memory, next: int)

  /**
   * sent records the payload of every number; toServer and toReceiver hold every copy ever made. serverNext is the
   * server's counter, unwrapped.
   */
  datatype Network = Network(
    sent: map<(ClientID, int), Bytes>, senders: map<ClientID, Sender>, server: State, serverNext: int,
    toServer: set<Copy>, toReceiver: set<Copy>, receiver: Receiver)

  /** ClientDoes stands for heartbeats, acks and restarts, ServerDoes for anything the server does. */
  datatype Action =
    | Send(sender: ClientID, inner: Bytes)
    | ClientDoes(sender: ClientID, memory: Memory)
    | Relay(copy: Copy, from: UdpAddr, io: Io)
    | SendFromServer(payload: Bytes, io: Io)
    | ServerDoes(step: Step)
    | Arrive(copy: Copy)
    | OpenTun

  function DataBytes(sender: ClientID, n: int, payload: Bytes): Bytes {
    HeaderBytes(Header(VERSION1, TYPE_DATA, false, sender, n % TWO32)) + payload
  }

  /** The first number from next on that the 32-bit counter stands for; one that was reset has jumped ahead. */
  function Unwrapped(next: int, counter: UInt32): (n: int)
    ensures n >= next && n % TWO32 == counter
  {
    next + (counter - next) % TWO32
  }

  /** The numbers that arrived from a sender. */
  function NumbersFrom(log: seq<Arrival>, sender: ClientID): seq<int> {
    if log == [] then []
    else
      var last := log[|log| - 1];
      NumbersFrom(log[..|log| - 1], sender) + if last.sender == sender then [last.n] else []
  }

  /** In range for the receiver's window. */
  ghost predicate Timely(log: seq<Arrival>, sender: ClientID, n: int, w: WindowSize) {
    var ns := NumbersFrom(log, sender);
    ns != [] ==> Highest(ns) - w < n < Highest(ns) + TWO31
  }

  ghost predicate Enabled(net: Network, a: Action, w: WindowSize) {
    match a
    case Send(sender, inner) => sender in net.senders && DataPacket(net.senders[sender].memory, sender, inner).Some?
    case ClientDoes(sender, _) => sender in net.senders
    case Relay(copy, _, _) => copy in net.toServer
    case SendFromServer(_, _) => true
    case ServerDoes(step) => true
    case Arrive(copy) => copy in net.toReceiver && Timely(net.receiver.log, copy.sender, copy.n, w)
    case OpenTun => true
  }

  function Forwarded(effects: seq<Effect>, sender: ClientID, n: int): set<Copy> {
    set e | e in effects && e.Forward? :: Copy(sender, n, e.packet)
  }

  /** The client's handleData on one copy. */
  function Received(r: Receiver, copy: Copy, w: WindowSize): Receiver {
    match DecodeHeader(copy.data)
    case Failure(_) => r
    case Success(h) =>
      if h.kind != TYPE_DATA then r else
      var (windows, out) := Heard(r.windows, r.hasTun, h, copy.data[HEADER_SIZE..], w);
      r.(windows := windows, log := r.log + [Arrival(copy.sender, copy.n, r.hasTun)],
         written := if out.None? then r.written else r.written + [Delivered(copy.sender, copy.n, out.value)])
  }

  function Advanced(net: Network, server: State): Network {
    net.(server := server, serverNext := Unwrapped(net.serverNext, server.seqNo))
  }

  function Act(cfg: Config, net: Network, a: Action, w: WindowSize, now: Time): Network {
    match a
    case Send(sender, inner) =>
      if sender !in net.senders || DataPacket(net.senders[sender].memory, sender, inner).None? then net
      else
        var Sender(m, n) := net.senders[sender];
        var packet := DataPacket(m, sender, inner).value;
        net.(sent := net.sent[(sender, n) := packet[HEADER_SIZE..]],
             senders := net.senders[sender := Sender(NextSeq(m), Unwrapped(n, NextSeq(m).seqNo))],
             toServer := net.toServer + {Copy(sender, n, packet)})
    case ClientDoes(sender, m) =>
      if sender !in net.senders then net
      else net.(senders := net.senders[sender := Sender(m, Unwrapped(net.senders[sender].next, m.seqNo))])
    case Relay(copy, from, io) =>
      var next := OnPacket(cfg, net.server, copy.data, from, now, io);
      Advanced(net, next.state).(toReceiver := net.toReceiver + Forwarded(next.effects, copy.sender, copy.n))
    case SendFromServer(payload, io) =>
      var next := OnTun(net.server, payload, io);
      if next.effects == [] then Advanced(net, next.state)
      else Advanced(net, next.state).(sent := net.sent[(0, net.serverNext) := payload],
             toReceiver := net.toReceiver + Forwarded(next.effects, 0, net.serverNext))
    case ServerDoes(step) => Advanced(net, Apply(cfg, net.server, step, now).state)
    case Arrive(copy) => net.(receiver := Received(net.receiver, copy, w))
    case OpenTun => net.(receiver := net.receiver.(hasTun := true))
  }

  // ---- The invariant ----

  /** The copy is, byte for byte, what its sender sent under its number. */
  predicate Genuine(sent: map<(ClientID, int), Bytes>, copy: Copy) {
    (copy.sender, copy.n) in sent && copy.data == DataBytes(copy.sender, copy.n, sent[(copy.sender, copy.n)])
  }

  predicate Same(a: Arrival, c: ClientID, n: int) { a.sender == c && a.n == n }

  /** The first copy of this packet found the TUN device open. */
  ghost predicate FirstFoundTun(log: seq<Arrival>, c: ClientID, n: int) {
    exists i :: 0 <= i < |log| && Same(log[i], c, n) && log[i].tun && forall k :: 0 <= k < i ==> !Same(log[k], c, n)
  }

  ghost predicate WasWritten(written: seq<Delivered>, c: ClientID, n: int) {
    exists i :: 0 <= i < |written| && written[i].sender == c && written[i].n == n
  }

  /**
   * No packet was written twice, all with the payload that was sent, and written are exactly those whose first
   * copy found the TUN device open.
   */
  ghost predicate FirstCopiesWritten(sent: map<(ClientID, int), Bytes>, r: Receiver) {
    && (forall i, j :: 0 <= i < j < |r.written| ==>
          r.written[i].sender != r.written[j].sender || r.written[i].n != r.written[j].n)
    && (forall d :: d in r.written ==> (d.sender, d.n) in sent && d.payload == sent[(d.sender, d.n)])
    && forall c, n :: WasWritten(r.written, c, n) <==> FirstFoundTun(r.log, c, n)
  }

  /** Each window denotes the arrivals from its sender. */
  ghost predicate WindowsDenote(r: Receiver, w: WindowSize) {
    && (forall c :: c in r.windows <==> NumbersFrom(r.log, c) != [])
    && forall c :: c in r.windows ==> Denotes(r.windows[c], Summary(NumbersFrom(r.log, c)), w)
  }

  /** Every counter stands for its next number, and all numbers so far are smaller. */
  ghost predicate NumbersFresh(net: Network) {
    && 0 !in net.senders && net.serverNext % TWO32 == net.server.seqNo
    && (forall c :: c in net.senders ==> net.senders[c].next % TWO32 == net.senders[c].memory.seqNo)
    && forall k :: k in net.sent ==>
         if k.0 == 0 then k.1 < net.serverNext else k.0 in net.senders && k.1 < net.senders[k.0].next
  }

  ghost predicate DeliveryInvariant(net: Network, w: WindowSize) {
    && NumbersFresh(net)
    && (forall copy :: copy in net.toServer ==> Genuine(net.sent, copy))
    && (forall copy :: copy in net.toReceiver ==> Genuine(net.sent, copy))
    && WindowsDenote(net.receiver, w) && FirstCopiesWritten(net.sent, net.receiver)
  }

  // ---- One arrival ----

  lemma ArrivalVerdict(win: Option<Window>, ns: seq<int>, n: int, w: WindowSize)
    requires Divides(w) && (win.None? <==> ns == [])
    requires ns != [] ==> Denotes(win.value, Summary(ns), w) && Highest(ns) - w < n < Highest(ns) + TWO31
    ensures var v := Observe(win, n % TWO32, w);
            (v.duplicate <==> n in ns) && Denotes(v.window, Summary(ns + [n]), w)
  {
    hide Denotes;
    if ns == [] {
      FirstArrivalDenotes(n, w);
      assert Summary([n]) == Track(n, {n}) && ns + [n] == [n];
    } else {
      InRangeArrival(win.value, Summary(ns), n, w);
      SummaryExtends(ns, n);
    }
  }

  lemma ReceivedGenuine(sent: map<(ClientID, int), Bytes>, r: Receiver, copy: Copy, w: WindowSize)
    requires Genuine(sent, copy)
    ensures var v := Observe(Lookup(r.windows, copy.sender), copy.n % TWO32, w);
            Received(r, copy, w) ==
              Receiver(r.hasTun, r.windows[copy.sender := v.window],
                       r.log + [Arrival(copy.sender, copy.n, r.hasTun)],
                       if v.duplicate || !r.hasTun then r.written
                       else r.written + [Delivered(copy.sender, copy.n, sent[(copy.sender, copy.n)])])
  {
    hide HeaderBytes, DecodeHeader, Observe;
    HeaderRoundTrip(Header(VERSION1, TYPE_DATA, false, copy.sender, copy.n % TWO32), sent[(copy.sender, copy.n)]);
  }

  lemma NumbersExtend(log: seq<Arrival>, a: Arrival, c: ClientID)
    ensures NumbersFrom(log + [a], c) == if a.sender == c then NumbersFrom(log, c) + [a.n] else NumbersFrom(log, c)
  {
    assert (log + [a])[..|log|] == log;
  }

  lemma {:induction false} NumbersAreArrivals(log: seq<Arrival>, c: ClientID, n: int)
    ensures n in NumbersFrom(log, c) <==> exists i :: 0 <= i < |log| && Same(log[i], c, n)
  {
    if log != [] {
      var k := |log| - 1;
      NumbersAreArrivals(log[..k], c, n);
      assert log[..k] + [log[k]] == log;
      NumbersExtend(log[..k], log[k], c);
      assert forall i :: 0 <= i < k ==> log[..k][i] == log[i];
    }
  }

  /** One more arrival makes a difference to its own packet only, and only if that is new. */
  lemma FirstFoundExtends(log: seq<Arrival>, a: Arrival, c: ClientID, n: int)
    ensures FirstFoundTun(log + [a], c, n) <==>
            FirstFoundTun(log, c, n) || (Same(a, c, n) && a.tun && n !in NumbersFrom(log, c))
  {
    var more := log + [a];
    NumbersAreArrivals(log, c, n);
    assert more[|log|] == a && forall i :: 0 <= i < |log| ==> more[i] == log[i];
    if FirstFoundTun(log, c, n) {
      var i :| 0 <= i < |log| && Same(log[i], c, n) && log[i].tun && forall k :: 0 <= k < i ==> !Same(log[k], c, n);
      assert more[i] == log[i];
    }
    if FirstFoundTun(more, c, n) {
      var i :| 0 <= i < |more| && Same(more[i], c, n) && more[i].tun && forall k :: 0 <= k < i ==> !Same(more[k], c, n);
      if i < |log| { assert log[i] == more[i]; }
    }
  }

  lemma WrittenExtends(written: seq<Delivered>, d: Delivered, c: ClientID, n: int)
    ensures WasWritten(written + [d], c, n) <==> WasWritten(written, c, n) || (d.sender == c && d.n == n)
  {
    var more := written + [d];
    assert more[|written|] == d && forall i :: 0 <= i < |written| ==> more[i] == written[i];
    if WasWritten(written, c, n) {
      var i :| 0 <= i < |written| && written[i].sender == c && written[i].n == n;
      assert more[i] == written[i];
    }
  }

  lemma RecordKeepsFirst(sent: map<(ClientID, int), Bytes>, r: Receiver, t: Receiver, c: ClientID, n: int,
        duplicate: bool)
    requires FirstCopiesWritten(sent, r) && (c, n) in sent
    requires duplicate <==> n in NumbersFrom(r.log, c)
    requires t.log == r.log + [Arrival(c, n, r.hasTun)]
    requires t.written == if duplicate || !r.hasTun then r.written else r.written + [Delivered(c, n, sent[(c, n)])]
    ensures FirstCopiesWritten(sent, t)
  {
    hide FirstFoundTun, WasWritten, NumbersFrom;
    forall b, m ensures WasWritten(t.written, b, m) <==> FirstFoundTun(t.log, b, m) {
      FirstFoundExtends(r.log, Arrival(c, n, r.hasTun), b, m);
      WrittenExtends(r.written, Delivered(c, n, sent[(c, n)]), b, m);
    }
    NotYetWritten(r, c, n);
  }

  /** What has not arrived has not been written. */
  lemma NotYetWritten(r: Receiver, c: ClientID, n: int)
    requires WasWritten(r.written, c, n) ==> FirstFoundTun(r.log, c, n)
    ensures n !in NumbersFrom(r.log, c) ==>
              forall i :: 0 <= i < |r.written| ==> r.written[i].sender != c || r.written[i].n != n
  {
    NumbersAreArrivals(r.log, c, n);
    if i :| 0 <= i < |r.written| && r.written[i].sender == c && r.written[i].n == n {
      assert WasWritten(r.written, c, n);
    }
  }

  lemma ArriveKeeps(sent: map<(ClientID, int), Bytes>, r: Receiver, copy: Copy, w: WindowSize)
    requires Divides(w) && Genuine(sent, copy) && Timely(r.log, copy.sender, copy.n, w)
    requires WindowsDenote(r, w) && FirstCopiesWritten(sent, r)
    ensures WindowsDenote(Received(r, copy, w), w) && FirstCopiesWritten(sent, Received(r, copy, w))
  {
    hide Denotes, Observe, FirstCopiesWritten, Summary, Highest, Received, NumbersFrom;
    var c := copy.sender;
    var v := Observe(Lookup(r.windows, c), copy.n % TWO32, w);
    ArrivalVerdict(Lookup(r.windows, c), NumbersFrom(r.log, c), copy.n, w);
    ReceivedGenuine(sent, r, copy, w);
    var a := Arrival(c, copy.n, r.hasTun);
    forall b
      ensures NumbersFrom(r.log + [a], b) == if b == c then NumbersFrom(r.log, b) + [copy.n] else NumbersFrom(r.log, b)
    {
      NumbersExtend(r.log, a, b);
    }
    RecordKeepsFirst(sent, r, Received(r, copy, w), c, copy.n, v.duplicate);
  }

  // ---- The relay ----

  /** Whatever state the server is in, it forwards data packets unchanged or not at all. */
  lemma RelaysUnchanged(cfg: Config, s: State, data: Bytes, from: UdpAddr, now: Time, io: Io)
    ensures forall e :: e in OnPacket(cfg, s, data, from, now, io).effects && e.Forward? ==> e.packet == data
  {
    hide OnData, DecodeHeader, CountRx;
    if DecodeHeader(data).Success? {
      var h := DecodeHeader(data).value;
      var s1 := CountRx(s, h.clientID, from, |data|);
      if h.kind == TYPE_DATA {
        DataRelaysUnchanged(cfg, s1, h, data[HEADER_SIZE..], data, from, now, io);
      } else if h.kind == TYPE_HEARTBEAT {
        HeartbeatOnlyAcks(cfg, s1, h.clientID, data[HEADER_SIZE..], from, now);
      }
    }
  }

  lemma DataRelaysUnchanged(cfg: Config, s: State, h: Header, payload: Bytes, packet: Bytes, from: UdpAddr,
        now: Time, io: Io)
    ensures forall e :: e in OnData(cfg, s, h, payload, packet, from, now, io).effects && e.Forward? ==>
          e.packet == packet
  {
    hide Observe, Route, Source, Destination;
    var v := Observe(Lookup(s.dedup, h.clientID), h.seqNo, cfg.window);
    var s1 := s.(dedup := s.dedup[h.clientID := v.window]);
    if !v.duplicate && Acceptable(s1, h.clientID, payload) {
      var s2 := s1.(sessions := s1.sessions[h.clientID := DataFrom(s1.sessions[h.clientID], from, now)]);
      RouteForwards(cfg, s2, payload, packet, io);
    }
  }

  lemma TunSends(s: State, n: int, payload: Bytes, io: Io)
    requires n % TWO32 == s.seqNo
    ensures forall e :: e in OnTun(s, payload, io).effects && e.Forward? ==> e.packet == DataBytes(0, n, payload)
  {
    hide HeaderBytes, Fanout, Written, Destination;
    if InnerIPv4(payload) && Destination(payload) in s.routes {
      var id, packet := s.routes[Destination(payload)], DataBytes(0, n, payload);
      var s1 := s.(seqNo := (s.seqNo + 1) % TWO32);
      if id in s.sessions { FanoutForwards(s1.sessions[id], io, Targets(s1.sessions[id], io), id, packet); }
    }
  }

  lemma ForwardedCopies(effects: seq<Effect>, sender: ClientID, n: int, packet: Bytes)
    requires forall e :: e in effects && e.Forward? ==> e.packet == packet
    ensures forall copy :: copy in Forwarded(effects, sender, n) ==> copy == Copy(sender, n, packet)
  {}

  // ---- One action ----

  /** A packet the server sends from TUN uses its number up. */
  lemma TunUsesNumber(s: State, payload: Bytes, io: Io)
    ensures OnTun(s, payload, io).effects != [] ==> OnTun(s, payload, io).state.seqNo == (s.seqNo + 1) % TWO32
  {
    hide Written, Fanout, Targets, HeaderBytes, Destination;
  }

  lemma NextIsLater(n: int, counter: UInt32)
    requires counter == (n % TWO32 + 1) % TWO32
    ensures Unwrapped(n, counter) == n + 1
  {
    ResidueUnique(counter - n, 1, TWO32, (counter - n - 1) / TWO32);
  }

  lemma DataPacketBytes(m: Memory, sender: ClientID, inner: Bytes, n: int)
    requires DataPacket(m, sender, inner).Some? && n % TWO32 == m.seqNo
    ensures var packet := DataPacket(m, sender, inner).value;
            |packet| >= HEADER_SIZE && packet == DataBytes(sender, n, packet[HEADER_SIZE..])
  {
    hide Rewritten;
  }

  lemma NewNumberKeeps(net: Network, sent: map<(ClientID, int), Bytes>, w: WindowSize)
    requires forall copy :: copy in net.toServer ==> Genuine(net.sent, copy)
    requires forall copy :: copy in net.toReceiver ==> Genuine(net.sent, copy)
    requires FirstCopiesWritten(net.sent, net.receiver)
    requires forall k :: k in net.sent ==> k in sent && sent[k] == net.sent[k]
    ensures forall copy :: copy in net.toServer ==> Genuine(sent, copy)
    ensures forall copy :: copy in net.toReceiver ==> Genuine(sent, copy)
    ensures FirstCopiesWritten(sent, net.receiver)
  {
    hide DataBytes, WasWritten, FirstFoundTun;
  }

  lemma ServerNumberIsNew(net: Network)
    requires NumbersFresh(net)
    ensures (0, net.serverNext) !in net.sent
    ensures forall c :: c in net.senders ==> (c, net.senders[c].next) !in net.sent
  {}

  lemma SendKeepsDelivery(cfg: Config, net: Network, sender: ClientID, inner: Bytes, w: WindowSize, now: Time)
    requires DeliveryInvariant(net, w) && Enabled(net, Send(sender, inner), w)
    ensures DeliveryInvariant(Act(cfg, net, Send(sender, inner), w, now), w)
  {
    hide WindowsDenote, FirstCopiesWritten, DataBytes, DataPacket, Unwrapped;
    var Sender(m, n) := net.senders[sender];
    var packet := DataPacket(m, sender, inner).value;
    DataPacketBytes(m, sender, inner, n);
    ServerNumberIsNew(net);
    NextIsLater(n, NextSeq(m).seqNo);
    NewNumberKeeps(net, net.sent[(sender, n) := packet[HEADER_SIZE..]], w);
  }

  lemma TunKeepsDelivery(cfg: Config, net: Network, payload: Bytes, io: Io, w: WindowSize, now: Time)
    requires DeliveryInvariant(net, w)
    ensures DeliveryInvariant(Act(cfg, net, SendFromServer(payload, io), w, now), w)
  {
    hide WindowsDenote, FirstCopiesWritten, DataBytes, OnTun, Unwrapped;
    var next := OnTun(net.server, payload, io);
    if next.effects != [] {
      ServerNumberIsNew(net);
      TunUsesNumber(net.server, payload, io);
      NextIsLater(net.serverNext, next.state.seqNo);
      NewNumberKeeps(net, net.sent[(0, net.serverNext) := payload], w);
      TunSends(net.server, net.serverNext, payload, io);
      ForwardedCopies(next.effects, 0, net.serverNext, DataBytes(0, net.serverNext, payload));
    }
  }

  lemma ActionKeepsDelivery(cfg: Config, net: Network, a: Action, w: WindowSize, now: Time)
    requires Divides(w) && DeliveryInvariant(net, w) && Enabled(net, a, w)
    ensures DeliveryInvariant(Act(cfg, net, a, w, now), w)
  {
    hide WindowsDenote, FirstCopiesWritten, DataBytes, OnPacket, OnTun, Apply, Received, Timely, Unwrapped, DataPacket;
    match a
    case Send(sender, inner) => SendKeepsDelivery(cfg, net, sender, inner, w, now);
    case ClientDoes(sender, m) =>
    case Relay(copy, from, io) =>
      RelaysUnchanged(cfg, net.server, copy.data, from, now, io);
      ForwardedCopies(OnPacket(cfg, net.server, copy.data, from, now, io).effects, copy.sender, copy.n, copy.data);
    case SendFromServer(payload, io) => TunKeepsDelivery(cfg, net, payload, io, w, now);
    case ServerDoes(step) =>
    case Arrive(copy) => ArriveKeeps(net.sent, net.receiver, copy, w);
    case OpenTun => OpenTunKeeps(net.sent, net.receiver, w);
  }

  lemma OpenTunKeeps(sent: map<(ClientID, int), Bytes>, r: Receiver, w: WindowSize)
    requires WindowsDenote(r, w) && FirstCopiesWritten(sent, r)
    ensures var t := r.(hasTun := true); WindowsDenote(t, w) && FirstCopiesWritten(sent, t)
  {}

  // ---- Whole runs ----

  datatype TimedAction = TimedAction(action: Action, now: Time)

  function RunOf(cfg: Config, net: Network, actions: seq<TimedAction>, w: WindowSize): Network {
    if actions == [] then net
    else
      var n := |actions| - 1;
      Act(cfg, RunOf(cfg, net, actions[..n], w), actions[n].action, w, actions[n].now)
  }

  ghost predicate Possible(cfg: Config, net: Network, actions: seq<TimedAction>, w: WindowSize) {
    forall i :: 0 <= i < |actions| ==> Enabled(RunOf(cfg, net, actions[..i], w), actions[i].action, w)
  }

  /** Any server, and any clients in any state; nothing has been sent yet. */
  function Start(server: State, clients: map<ClientID, Memory>): Network {
    Network(map[], map c | c in clients :: Sender(clients[c], clients[c].seqNo), server, server.seqNo, {}, {},
            Receiver(false, map[], [], []))
  }

  /**
   * Whatever the relay's state and whatever happens to it, however many copies are made: as long as arrivals
   * at the receiver stay within its window, no packet is written to TUN twice, and written, with the payload its
   * sender gave them, are exactly the packets whose first copy found the TUN device open.
   */
  lemma {:induction false} DeliveredOnce(cfg: Config, server: State, clients: map<ClientID, Memory>,
        actions: seq<TimedAction>, w: WindowSize)
    requires Divides(w) && 0 !in clients && Possible(cfg, Start(server, clients), actions, w)
    ensures DeliveryInvariant(RunOf(cfg, Start(server, clients), actions, w), w)
  {
    hide DeliveryInvariant, Act, Enabled;
    if actions == [] {
      StartInvariant(server, clients, w);
    } else {
      var n := |actions| - 1;
      assert forall i :: 0 <= i < n ==> actions[..n][..i] == actions[..i];
      DeliveredOnce(cfg, server, clients, actions[..n], w);
      var before := RunOf(cfg, Start(server, clients), actions[..n], w);
      ActionKeepsDelivery(cfg, before, actions[n].action, w, actions[n].now);
    }
  }

  /** In particular, if the TUN device was open all the time, every packet that arrived was written. */
  lemma {:induction false} OpenTunMissesNothing(log: seq<Arrival>, c: ClientID, n: int)
    requires forall a :: a in log ==> a.tun
    ensures FirstFoundTun(log, c, n) <==> n in NumbersFrom(log, c)
  {
    if log != [] {
      var k := |log| - 1;
      assert forall a :: a in log[..k] ==> a in log;
      assert log[..k] + [log[k]] == log && log[k] in log;
      OpenTunMissesNothing(log[..k], c, n);
      FirstFoundExtends(log[..k], log[k], c, n);
      NumbersExtend(log[..k], log[k], c);
    }
  }

  lemma StartInvariant(server: State, clients: map<ClientID, Memory>, w: WindowSize)
    requires 0 !in clients
    ensures DeliveryInvariant(Start(server, clients), w)
  {}
}
