/** Packets sent one after the other: every one of them is written by a receiver that gets them in order. */
module Streams {
  import opened Basics
  import opened Packet
  import opened Dedup
  import opened Checksum
  import opened ServerModel
  import opened Client
  import opened Delivery
  import opened EndToEnd

  /** A receiver that takes these packets, one after the other. */
  function TakenAll(ep: Endpoint, packets: seq<Bytes>, w: WindowSize): Endpoint {
    if packets == [] then ep
    else Taken(TakenAll(ep, packets[..|packets| - 1], w), packets[|packets| - 1], w)
  }

  /** The receiver has heard nothing from the sender, or everything up to the number before n. */
  predicate UpTo(ep: Endpoint, sender: ClientID, n: int) {
    sender in ep.windows ==> ep.windows[sender].maxSeq == (n - 1) % TWO32
  }

  function Outputs(sender: ClientID, payloads: seq<Bytes>): seq<Output> {
    seq(|payloads|, k requires 0 <= k < |payloads| => Output(sender, payloads[k]))
  }

  lemma NextIsHeard(ep: Endpoint, sender: ClientID, n: int, payload: Bytes, w: WindowSize)
    requires ep.hasTun && UpTo(ep, sender, n)
    ensures var next := Taken(ep, DataBytes(sender, n, payload), w);
            && next.hasTun && sender in next.windows && UpTo(next, sender, n + 1)
            && next.output == ep.output + [Output(sender, payload)]
  {
    hide HeaderBytes, DecodeHeader, SlotsAhead;
    HeaderRoundTrip(Header(VERSION1, TYPE_DATA, false, sender, n % TWO32), payload);
    OneAhead(n);
  }

  lemma OneAhead(n: int)
    ensures Distance(n % TWO32, (n - 1) % TWO32) == 1
  {}

  /** Consecutive packets, taken in order, are all written, across any number of wrap-arounds. */
  lemma {:induction false} InOrderIsWritten(ep: Endpoint, sender: ClientID, n: int, payloads: seq<Bytes>,
        packets: seq<Bytes>, w: WindowSize)
    requires ep.hasTun && UpTo(ep, sender, n) && |packets| == |payloads|
    requires forall k :: 0 <= k < |packets| ==> packets[k] == DataBytes(sender, n + k, payloads[k])
    ensures var after := TakenAll(ep, packets, w);
            && after.hasTun && UpTo(after, sender, n + |packets|)
            && after.output == ep.output + Outputs(sender, payloads)
  {
    hide DataBytes, Taken;
    if packets != [] {
      var k := |packets| - 1;
      InOrderIsWritten(ep, sender, n, payloads[..k], packets[..k], w);
      NextIsHeard(TakenAll(ep, packets[..k], w), sender, n + k, payloads[k], w);
      assert Outputs(sender, payloads) == Outputs(sender, payloads[..k]) + [Output(sender, payloads[k])];
      assert ep.output + Outputs(sender, payloads[..k]) + [Output(sender, payloads[k])] ==
             ep.output + Outputs(sender, payloads);
    }
  }

  lemma NextResidue(n: int)
    ensures (n % TWO32 + 1) % TWO32 == (n + 1) % TWO32
  {}

  /** The counter that started at c, n numbers later. */
  function CounterAt(c: UInt32, n: nat): UInt32 { (c + n) % TWO32 }

  lemma CounterSteps(c: UInt32, n: nat)
    ensures CounterAt(c, 0) == c && (CounterAt(c, n) + 1) % TWO32 == CounterAt(c, n + 1)
  {
    NextResidue(c + n);
  }

  // ---- From the server's TUN device ----

  /** The server after reading these packets from TUN. */
  function AfterTun(s: State, inners: seq<Bytes>, ios: seq<Io>): State
    requires |ios| == |inners|
  {
    if inners == [] then s
    else
      var n := |inners| - 1;
      OnTun(AfterTun(s, inners[..n], ios[..n]), inners[n], ios[n]).state
  }

  /** The k-th of them is sent on, as this packet. */
  ghost predicate SendsAt(s: State, inners: seq<Bytes>, ios: seq<Io>, k: nat, packet: Bytes)
    requires k < |inners| == |ios|
  {
    exists to, d :: Forward(to, d, packet) in OnTun(AfterTun(s, inners[..k], ios[..k]), inners[k], ios[k]).effects
  }

  lemma {:induction false} CounterAfterTun(s: State, inners: seq<Bytes>, ios: seq<Io>, packets: seq<Bytes>, k: nat)
    requires |ios| == |inners| == |packets| && k <= |inners|
    requires forall i :: 0 <= i < |inners| ==> SendsAt(s, inners, ios, i, packets[i])
    ensures AfterTun(s, inners[..k], ios[..k]).seqNo == CounterAt(s.seqNo, k)
    decreases k
  {
    hide SendsAt, CounterAt;
    if k == 0 {
      CounterSteps(s.seqNo, 0);
    } else {
      hide AfterTun;
      CounterSteps(s.seqNo, k - 1);
      CounterAfterTun(s, inners, ios, packets, k - 1);
      SendingCounts(s, inners, ios, packets[k - 1], k - 1);
    }
  }

  lemma SendingCounts(s: State, inners: seq<Bytes>, ios: seq<Io>, packet: Bytes, k: nat)
    requires k < |inners| == |ios| && SendsAt(s, inners, ios, k, packet)
    ensures AfterTun(s, inners[..k + 1], ios[..k + 1]).seqNo ==
            (AfterTun(s, inners[..k], ios[..k]).seqNo + 1) % TWO32
  {
    hide OnTun, AfterTun;
    AfterTunExtends(s, inners, ios, k);
    TunUsesNumber(AfterTun(s, inners[..k], ios[..k]), inners[k], ios[k]);
  }

  lemma AfterTunExtends(s: State, inners: seq<Bytes>, ios: seq<Io>, k: nat)
    requires k < |inners| == |ios|
    ensures AfterTun(s, inners[..k + 1], ios[..k + 1]) ==
            OnTun(AfterTun(s, inners[..k], ios[..k]), inners[k], ios[k]).state
  {
    hide OnTun;
    assert inners[..k + 1][..k] == inners[..k] && ios[..k + 1][..k] == ios[..k];
  }

  /**
   * Packets read from the server's TUN device one after the other: a client with an open TUN device that gets one copy
   * of each in order writes them all.
   */
  lemma TunStreamIsWritten(s: State, inners: seq<Bytes>, ios: seq<Io>, packets: seq<Bytes>, ep: Endpoint, w: WindowSize)
    requires |ios| == |inners| == |packets|
    requires forall k :: 0 <= k < |inners| ==> SendsAt(s, inners, ios, k, packets[k])
    requires ep.hasTun && UpTo(ep, 0, s.seqNo)
    ensures TakenAll(ep, packets, w).output == ep.output + Outputs(0, inners)
  {
    hide OnTun, DataBytes, TakenAll, Outputs, AfterTun;
    forall k | 0 <= k < |packets| ensures packets[k] == DataBytes(0, s.seqNo + k, inners[k]) {
      CounterAfterTun(s, inners, ios, packets, k);
      assert SendsAt(s, inners, ios, k, packets[k]);
      var before := AfterTun(s, inners[..k], ios[..k]);
      var to, d :| Forward(to, d, packets[k]) in OnTun(before, inners[k], ios[k]).effects;
      TunSends(before, s.seqNo + k, inners[k], ios[k]);
      assert Forward(to, d, packets[k]).Forward?;
    }
    InOrderIsWritten(ep, 0, s.seqNo, inners, packets, w);
  }

  // ---- From a client ----

  /** The memory after k more packets. */
  function AfterSending(m: Memory, k: nat): Memory {
    if k == 0 then m else NextSeq(AfterSending(m, k - 1))
  }

  lemma {:induction false} CounterAfterSending(m: Memory, k: nat)
    ensures AfterSending(m, k) == m.(seqNo := (m.seqNo + k) % TWO32)
  {
    if k > 0 {
      CounterAfterSending(m, k - 1);
      NextResidue(m.seqNo + k - 1);
    }
  }

  /** These packets, as they leave the client. */
  function Leaving(m: Memory, inners: seq<Bytes>): (payloads: seq<Bytes>)
    requires forall k :: 0 <= k < |inners| ==> |inners[k]| >= 20
    ensures |payloads| == |inners|
  {
    seq(|inners|, k requires 0 <= k < |inners| => Rewritten(inners[k], m.virtualIP))
  }

  /** Packets a client reads from its TUN device one after the other are all written, under its leased address. */
  lemma ClientStreamIsWritten(m: Memory, id: ClientID, inners: seq<Bytes>, packets: seq<Bytes>, ep: Endpoint,
        w: WindowSize)
    requires |packets| == |inners| && ep.hasTun && UpTo(ep, id, m.seqNo)
    requires forall k :: 0 <= k < |inners| ==> |inners[k]| >= 20 && inners[k][0] / 16 == 4
    requires forall k :: 0 <= k < |inners| ==> DataPacket(AfterSending(m, k), id, inners[k]) == Some(packets[k])
    ensures TakenAll(ep, packets, w).output == ep.output + Outputs(id, Leaving(m, inners))
  {
    hide TakenAll, Outputs, Rewritten, HeaderBytes;
    forall k | 0 <= k < |packets|
      ensures packets[k] == DataBytes(id, m.seqNo + k, Rewritten(inners[k], m.virtualIP))
    {
      CounterAfterSending(m, k);
    }
    InOrderIsWritten(ep, id, m.seqNo, Leaving(m, inners), packets, w);
  }
}
