/**
 * What the deduplicator promises. The simple form it is compared with keeps every number accepted
 * since the last reset, as an unbounded integer (`Track`); the window keeps one bit per slot.
 */
module DedupTheory {
  import opened Basics
  import opened Dedup

  /** The highest number accepted and all numbers accepted since the last reset. */
  datatype Track = Track(top: int, seen: set<int>)

  datatype Outcome = Outcome(track: Track, duplicate: bool)

  /** The unbounded number that sequence number s stands for, seen from top. */
  function Lift(top: int, s: UInt32): int { top + Distance(s, top % TWO32) }

  /** The intended meaning of one arrival: a number is a duplicate exactly when it was seen. */
  function Note(t: Option<Track>, s: UInt32, w: WindowSize): Outcome {
    if t.None? then Outcome(Track(s, {s}), false) else
    var Track(top, seen) := t.value;
    var n := Lift(top, s);
    if n <= top - w then Outcome(Track(n, {n}), false)
    else Outcome(Track(Max(top, n), seen + {n}), n in seen)
  }

  /** The bitmap denotes exactly the numbers seen in the window (top - w, top]. */
  ghost predicate Denotes(win: Window, t: Track, w: WindowSize) {
    && win.maxSeq == t.top % TWO32
    && t.top in t.seen
    && (forall n :: n in t.seen ==> n <= t.top)
    && (forall b :: b in win.slots ==> 0 <= b < w)
    && (forall n :: t.top - w < n <= t.top ==> (Slot(n % TWO32, w) in win.slots <==> n in t.seen))
  }

  predicate Divides(w: WindowSize) { TWO32 % w == 0 }

  lemma DivisorIsSmall(w: WindowSize)
    requires Divides(w)
    ensures w <= TWO31
  {
    var v: int := w;
    if v > TWO31 { ResidueUnique(TWO32, TWO32 - v, v, 1); }
  }

  // ---- Slots on the circle of 2^32 numbers ----

  /** When w divides 2^32, the slot of an unbounded number is its residue: the wrap is invisible. */
  lemma SlotIsResidue(n: int, w: WindowSize)
    requires Divides(w)
    ensures Slot(n % TWO32, w) == n % w
  {
    var v: int := w;
    var q, k := TWO32 / v, n / TWO32;
    assert TWO32 == v * q;
    assert TWO32 * k == v * (q * k);
    ResidueUnique(n, n % TWO32, v, q * k);
  }

  /** Two numbers of one window never share a slot. */
  lemma SlotsDistinct(a: int, b: int, w: WindowSize)
    requires Divides(w) && a - b < w && b - a < w
    ensures Slot(a % TWO32, w) == Slot(b % TWO32, w) ==> a == b
  {
    SlotIsResidue(a, w);
    SlotIsResidue(b, w);
    var v: int := w;
    var d := a / v - b / v;
    assert a - b == v * d + a % v - b % v;
    MultipleIsFar(v, d);
  }

  lemma SlotAheadOfTop(top: int, i: int, w: WindowSize)
    ensures SlotAhead(top % TWO32, i, w) == Slot((top + i) % TWO32, w)
  {
    assert (top % TWO32 + i) % TWO32 == (top + i) % TWO32;
  }

  // ---- One arrival ----

  lemma LiftIsRight(top: int, s: UInt32)
    ensures Lift(top, s) % TWO32 == s && -TWO31 <= Lift(top, s) - top <= TWO31
  {}

  /** Only numbers in (top, top + shift] are forgotten, and all of them are. */
  lemma AheadSlots(top: int, shift: int, n: int, w: WindowSize)
    requires Divides(w) && 0 < shift < w && top + shift - w < n <= top + shift
    ensures Slot(n % TWO32, w) in SlotsAhead(top % TWO32, shift, w) <==> n > top
  {
    if n > top {
      SlotAheadOfTop(top, n - top, w);
      assert SlotAhead(top % TWO32, n - top, w) in SlotsAhead(top % TWO32, shift, w);
    } else if Slot(n % TWO32, w) in SlotsAhead(top % TWO32, shift, w) {
      var i :| 1 <= i <= shift && SlotAhead(top % TWO32, i, w) == Slot(n % TWO32, w);
      SlotAheadOfTop(top, i, w);
      SlotsDistinct(n, top + i, w);
    }
  }

  /** The bitmap refines the set of seen numbers, restarts and wrap-around included. */
  lemma ObserveRefinesNote(win: Window, t: Track, s: UInt32, w: WindowSize)
    requires Divides(w) && Denotes(win, t, w)
    ensures var v, o := Observe(Some(win), s, w), Note(Some(t), s, w);
            v.duplicate == o.duplicate && Denotes(v.window, o.track, w)
  {
    var v, o := Observe(Some(win), s, w), Note(Some(t), s, w);
    var x := Lift(t.top, s);
    LiftIsRight(t.top, s);
    forall n | o.track.top - w < n <= o.track.top
      ensures Slot(n % TWO32, w) in v.window.slots <==> n in o.track.seen
    {
      SlotsDistinct(n, x, w);
      if 0 < x - t.top < w { AheadSlots(t.top, x - t.top, n, w); }
    }
  }

  lemma FirstArrivalDenotes(n: int, w: WindowSize)
    requires Divides(w)
    ensures Denotes(Observe(None, n % TWO32, w).window, Track(n, {n}), w)
  {
    forall m | n - w < m <= n ensures Slot(m % TWO32, w) == Slot(n % TWO32, w) ==> m == n {
      SlotsDistinct(m, n, w);
    }
  }

  /** An arrival at least w away in either direction starts afresh, so the sign of the tie at 2^31 is harmless. */
  lemma FarArrivalStartsAfresh(win: Window, s: UInt32, w: WindowSize)
    requires Distance(s, win.maxSeq) >= w || -Distance(s, win.maxSeq) >= w
    ensures Observe(Some(win), s, w) == Observe(None, s, w)
  {
    assert forall a: set<int> :: {} + a == a;
  }

  // ---- Whole runs: the sender counts in unbounded integers and sends them mod 2^32 ----

  /** The window after the given arrivals. */
  function Received(ns: seq<int>, w: WindowSize): Option<Window> {
    if ns == [] then None
    else Some(Observe(Received(ns[..|ns| - 1], w), ns[|ns| - 1] % TWO32, w).window)
  }

  /** What IsDuplicate answers for the i-th arrival. */
  function Answer(ns: seq<int>, i: nat, w: WindowSize): bool
    requires i < |ns|
  {
    Observe(Received(ns[..i], w), ns[i] % TWO32, w).duplicate
  }

  function Highest(ns: seq<int>): (m: int)
    requires ns != []
    ensures m in ns && forall n :: n in ns ==> n <= m
  {
    if |ns| == 1 then ns[0]
    else
      assert ns == ns[..|ns| - 1] + [ns[|ns| - 1]];
      Max(Highest(ns[..|ns| - 1]), ns[|ns| - 1])
  }

  /** Every arrival is less than w behind, and less than 2^31 ahead of, the highest one before it. */
  ghost predicate InRange(ns: seq<int>, w: WindowSize) {
    forall i :: 1 <= i < |ns| ==> Highest(ns[..i]) - w < ns[i] < Highest(ns[..i]) + TWO31
  }

  /** Exactly the first copy of each number is let through. */
  ghost predicate Exact(ns: seq<int>, w: WindowSize) {
    forall i :: 0 <= i < |ns| ==> (Answer(ns, i, w) <==> ns[i] in ns[..i])
  }

  lemma LiftInverse(top: int, n: int)
    requires -TWO31 < n - top < TWO31
    ensures Lift(top, n % TWO32) == n
  {}

  /** One in-range arrival: the window answers from, and goes on denoting, the numbers seen. */
  lemma InRangeArrival(win: Window, t: Track, n: int, w: WindowSize)
    requires Divides(w) && Denotes(win, t, w) && t.top - w < n < t.top + TWO31
    ensures var v := Observe(Some(win), n % TWO32, w);
            && (v.duplicate <==> n in t.seen)
            && Denotes(v.window, Track(Max(t.top, n), t.seen + {n}), w)
  {
    DivisorIsSmall(w);
    LiftInverse(t.top, n);
    ObserveRefinesNote(win, t, n % TWO32, w);
  }

  function Summary(ns: seq<int>): Track
    requires ns != []
  {
    Track(Highest(ns), set n | n in ns)
  }

  lemma SummaryExtends(ns: seq<int>, n: int)
    requires ns != []
    ensures Summary(ns + [n]) == Track(Max(Highest(ns), n), Summary(ns).seen + {n})
  {
    assert (ns + [n])[..|ns|] == ns;
  }

  lemma ReceivedExtends(ns: seq<int>, i: nat, w: WindowSize)
    requires i < |ns|
    ensures Received(ns[..i + 1], w) == Some(Observe(Received(ns[..i], w), ns[i] % TWO32, w).window)
  {
    assert ns[..i + 1][..i] == ns[..i];
  }

  lemma OneMoreArrival(ns: seq<int>, i: nat, w: WindowSize)
    requires Divides(w) && 1 <= i < |ns| && InRange(ns, w)
    requires Received(ns[..i], w).Some? && Denotes(Received(ns[..i], w).value, Summary(ns[..i]), w)
    ensures Answer(ns, i, w) <==> ns[i] in ns[..i]
    ensures Received(ns[..i + 1], w).Some? && Denotes(Received(ns[..i + 1], w).value, Summary(ns[..i + 1]), w)
  {
    var earlier, n := ns[..i], ns[i];
    hide Denotes;
    InRangeArrival(Received(earlier, w).value, Summary(earlier), n, w);
    SummaryExtends(earlier, n);
    ReceivedExtends(ns, i, w);
    assert ns[..i + 1] == earlier + [n];
  }

  lemma {:induction false} RunDenotes(ns: seq<int>, i: nat, w: WindowSize)
    requires Divides(w) && 1 <= i <= |ns| && InRange(ns, w)
    ensures Received(ns[..i], w).Some? && Denotes(Received(ns[..i], w).value, Summary(ns[..i]), w)
  {
    if i == 1 {
      FirstArrivalDenotes(ns[0], w);
      assert ns[..1] == [ns[0]] && ns[..1][..0] == [];
      assert Summary(ns[..1]) == Track(ns[0], {ns[0]});
    } else {
      RunDenotes(ns, i - 1, w);
      OneMoreArrival(ns, i - 1, w);
    }
  }

  /** Exactly-once over unbounded runs, across any number of wrap-arounds. */
  lemma ExactlyOnce(ns: seq<int>, w: WindowSize)
    requires Divides(w) && InRange(ns, w)
    ensures Exact(ns, w)
  {
    forall i | 1 <= i < |ns| ensures Answer(ns, i, w) <==> ns[i] in ns[..i] {
      RunDenotes(ns, i, w);
      OneMoreArrival(ns, i, w);
    }
  }

  /** A run that goes wrong for every size that does not divide 2^32: the second packet is new but dropped. */
  function WrapWitness(w: WindowSize): seq<int> { [TWO32, TWO32 - TWO32 % w] }

  /** TWO32 % w is what is left of 2^32; for a w above 2^31 that is 2^32 - w. */
  lemma RemainderIsSmall(v: int)
    requires 1 <= v <= MAX_WINDOW_SIZE && TWO32 % v != 0
    ensures 0 < TWO32 % v < v && TWO32 % v < TWO31
  {
    assert TWO32 % TWO31 == 0;
    if v > TWO31 { ResidueUnique(TWO32, TWO32 - v, v, 1); }
  }

  lemma WrapRemainder(w: WindowSize)
    requires !Divides(w)
    ensures Slot(TWO32 - TWO32 % w, w) == 0 && 0 < TWO32 % w < w && TWO32 % w < TWO31
  {
    var v: int := w;
    RemainderIsSmall(v);
    ResidueUnique(TWO32 - TWO32 % v, 0, v, TWO32 / v);
  }

  /** 0, sent after the wrap, occupies the slot of TWO32 - r, which was sent before it and is still in the window. */
  lemma WrapCollision(r: int, w: WindowSize)
    requires 0 < r < w && r < TWO31 && Slot(TWO32 - r, w) == 0
    ensures Observe(Some(Observe(None, 0, w).window), TWO32 - r, w).duplicate
  {
    assert Distance(TWO32 - r, 0) == -r;
  }

  lemma WrapWitnessFails(w: WindowSize)
    requires !Divides(w)
    ensures InRange(WrapWitness(w), w) && !Exact(WrapWitness(w), w)
  {
    WrapRemainder(w);
    var ns := WrapWitness(w);
    assert ns[..1] == [ns[0]] && ns[..1][..0] == [];
    assert ns[0] % TWO32 == 0 && ns[1] % TWO32 == ns[1];
    WrapCollision(TWO32 % w, w);
    assert Received(ns[..1], w) == Some(Observe(None, 0, w).window);
    assert Answer(ns, 1, w);
  }

  /** The deduplicator is exact on all in-range runs if and only if its window size divides 2^32. */
  lemma ExactIffDivides(w: WindowSize)
    ensures (forall ns :: InRange(ns, w) ==> Exact(ns, w)) <==> Divides(w)
  {
    if Divides(w) {
      forall ns | InRange(ns, w) ensures Exact(ns, w) { ExactlyOnce(ns, w); }
    } else {
      WrapWitnessFails(w);
    }
  }

  // ---- Arbitrary arrivals, restarts included ----

  /** A window after further arrivals. */
  function Continued(win: Option<Window>, ks: seq<UInt32>, w: WindowSize): Option<Window> {
    if ks == [] then win
    else Some(Observe(Continued(win, ks[..|ks| - 1], w), ks[|ks| - 1], w).window)
  }

  /** The i-th of these arrivals is taken for a duplicate. */
  predicate DroppedAt(win: Option<Window>, ks: seq<UInt32>, i: nat, w: WindowSize)
    requires i < |ks|
  {
    Observe(Continued(win, ks[..i], w), ks[i], w).duplicate
  }

  /** The numbers accepted since the last reset, after any arrivals. */
  function Noted(ks: seq<UInt32>, w: WindowSize): Option<Track> {
    if ks == [] then None else Some(Note(Noted(ks[..|ks| - 1], w), ks[|ks| - 1], w).track)
  }

  lemma {:induction false} RunDenotesNoted(ks: seq<UInt32>, w: WindowSize)
    requires Divides(w) && ks != []
    ensures Denotes(Continued(None, ks, w).value, Noted(ks, w).value, w)
  {
    hide Observe, Note, Denotes;
    var n := |ks| - 1;
    if n == 0 {
      FirstIsNoted(ks[0], w);
      assert ks[..0] == [];
    } else {
      RunDenotesNoted(ks[..n], w);
      ObserveRefinesNote(Continued(None, ks[..n], w).value, Noted(ks[..n], w).value, ks[n], w);
    }
  }

  lemma FirstIsNoted(s: UInt32, w: WindowSize)
    requires Divides(w)
    ensures Denotes(Observe(None, s, w).window, Note(None, s, w).track, w)
  {
    hide Denotes;
    FirstArrivalDenotes(s, w);
  }

  /**
   * Over any arrivals whatever, in range or not, restarts and wrap-arounds included, the window answers as the set of
   * numbers seen, and goes on denoting it.
   */
  lemma RunRefinesNotes(ks: seq<UInt32>, i: nat, w: WindowSize)
    requires Divides(w) && i < |ks|
    ensures DroppedAt(None, ks, i, w) <==> Note(Noted(ks[..i], w), ks[i], w).duplicate
    ensures Denotes(Continued(None, ks, w).value, Noted(ks, w).value, w)
  {
    hide Denotes;
    RunDenotesNoted(ks, w);
    if i > 0 {
      RunDenotesNoted(ks[..i], w);
      ObserveRefinesNote(Continued(None, ks[..i], w).value, Noted(ks[..i], w).value, ks[i], w);
    }
  }

  // ---- A sender that starts counting anew, without a reset of its window ----

  /** Numbers in increasing order, fewer than 2^31 of them: what a sender uses after its counter has started anew. */
  predicate Restarted(ks: seq<UInt32>) {
    (forall i :: 0 <= i < |ks| ==> ks[i] < TWO31) && forall i, j :: 0 <= i < j < |ks| ==> ks[i] < ks[j]
  }

  /** A number this far below maxSeq makes the window start afresh. */
  predicate StartsOver(maxSeq: UInt32, first: UInt32, w: WindowSize) {
    maxSeq - first >= w || maxSeq - first > TWO31
  }

  /** The slots these arrivals fill as long as they do not move the window. */
  function FilledSlots(ks: seq<UInt32>, maxSeq: UInt32, w: WindowSize): set<int> {
    set j | 0 <= j < |ks| && ks[j] != maxSeq :: Slot(ks[j], w)
  }

  /** The window after these numbers as long as it has not moved. */
  function StreamWindow(win: Option<Window>, ks: seq<UInt32>, w: WindowSize): Option<Window> {
    if ks == [] || win.None? then win
    else Some(Window(win.value.maxSeq, win.value.slots + FilledSlots(ks, win.value.maxSeq, w)))
  }

  predicate MovedOn(win: Option<Window>, ks: seq<UInt32>, w: WindowSize) {
    ks != [] && (win.None? || StartsOver(win.value.maxSeq, ks[0], w) || ks[|ks| - 1] > win.value.maxSeq)
  }

  ghost predicate StreamState(win: Option<Window>, ks: seq<UInt32>, w: WindowSize) {
    var now := Continued(win, ks, w);
    if MovedOn(win, ks, w) then now.Some? && now.value.maxSeq == ks[|ks| - 1] else now == StreamWindow(win, ks, w)
  }

  /** The number is dropped: the window stood still, and this number or another one in its slot was seen in it. */
  predicate StillSeen(win: Option<Window>, first: UInt32, k: UInt32, w: WindowSize) {
    && win.Some? && !StartsOver(win.value.maxSeq, first, w)
    && (k == win.value.maxSeq || (k < win.value.maxSeq && Slot(k, w) in win.value.slots))
  }

  lemma SlotsOfStream(ks: seq<UInt32>, maxSeq: UInt32, k: UInt32, w: WindowSize)
    requires Restarted(ks + [k]) && !StartsOver(maxSeq, (ks + [k])[0], w) && k < maxSeq
    ensures Slot(k, w) !in FilledSlots(ks, maxSeq, w)
  {
    forall j | 0 <= j < |ks| ensures Slot(ks[j], w) != Slot(k, w) {
      assert (ks + [k])[j] == ks[j] && (ks + [k])[|ks|] == k;
      var v: int := w;
      var d := k / v - ks[j] / v;
      assert k - ks[j] == v * d + k % v - ks[j] % v;
      MultipleIsFar(v, d);
    }
  }

  lemma FilledExtends(ks: seq<UInt32>, maxSeq: UInt32, k: UInt32, w: WindowSize)
    ensures FilledSlots(ks + [k], maxSeq, w)
         == if k == maxSeq then FilledSlots(ks, maxSeq, w) else FilledSlots(ks, maxSeq, w) + {Slot(k, w)}
  {
    var more := ks + [k];
    assert more[|ks|] == k && forall j :: 0 <= j < |ks| ==> more[j] == ks[j];
  }

  lemma NextOfStream(win: Option<Window>, ks: seq<UInt32>, k: UInt32, w: WindowSize)
    requires Restarted(ks + [k]) && StreamState(win, ks, w)
    ensures StreamState(win, ks + [k], w)
    ensures Observe(Continued(win, ks, w), k, w).duplicate <==> StillSeen(win, (ks + [k])[0], k, w)
  {
    hide FilledSlots, Restarted, Slot, SlotsAhead;
    var more := ks + [k];
    assert more[..|ks|] == ks;
    assert ks != [] ==> more[0] == ks[0] && ks[|ks| - 1] < k by { NumbersOfStream(ks, k); }
    assert k < TWO31 by { NumbersOfStream(ks, k); }
    if win.Some? {
      var Window(maxSeq, slots) := win.value;
      FilledExtends(ks, maxSeq, k, w);
      NothingFilled(maxSeq, w);
      assert slots + FilledSlots([], maxSeq, w) == slots;
      var filled := FilledSlots(ks, maxSeq, w);
      assert slots + filled + {Slot(k, w)} == slots + (filled + {Slot(k, w)});
      if k < maxSeq && !StartsOver(maxSeq, more[0], w) { SlotsOfStream(ks, maxSeq, k, w); }
    }
  }

  lemma NothingFilled(maxSeq: UInt32, w: WindowSize)
    ensures FilledSlots([], maxSeq, w) == {}
  {}

  lemma NumbersOfStream(ks: seq<UInt32>, k: UInt32)
    requires Restarted(ks + [k])
    ensures k < TWO31 && Restarted(ks) && (ks != [] ==> ks[0] <= ks[|ks| - 1] < k)
  {
    var more := ks + [k];
    assert more[|ks|] == k && forall j :: 0 <= j < |ks| ==> more[j] == ks[j];
  }

  lemma {:induction false} StreamContinues(win: Option<Window>, ks: seq<UInt32>, w: WindowSize)
    requires Restarted(ks)
    ensures StreamState(win, ks, w)
  {
    if ks != [] {
      hide StreamState;
      var n := |ks| - 1;
      assert ks[..n] + [ks[n]] == ks;
      StreamContinues(win, ks[..n], w);
      NextOfStream(win, ks[..n], ks[n], w);
    }
  }

  /**
   * A sender that starts counting anew, without a reset, loses exactly those packets whose slots were filled before,
   * and none at all if its first number is at least w (or more than 2^31) below maxSeq.
   */
  lemma RestartedStream(win: Option<Window>, ks: seq<UInt32>, i: nat, w: WindowSize)
    requires Restarted(ks) && i < |ks|
    ensures DroppedAt(win, ks, i, w) <==> StillSeen(win, ks[0], ks[i], w)
  {
    hide StreamState, Observe;
    assert ks[..i] + [ks[i]] == ks[..i + 1];
    StreamContinues(win, ks[..i], w);
    NextOfStream(win, ks[..i], ks[i], w);
  }

  /** In terms of the numbers seen before: lost is what was sent and heard under the same sequence number before. */
  lemma RestartedStreamLoses(win: Window, t: Track, ks: seq<UInt32>, i: nat, w: WindowSize)
    requires Denotes(win, t, w) && Restarted(ks) && i < |ks|
    ensures DroppedAt(Some(win), ks, i, w) <==>
            !StartsOver(win.maxSeq, ks[0], w) && ks[i] <= win.maxSeq && t.top - (win.maxSeq - ks[i]) in t.seen
  {
    RestartedStream(Some(win), ks, i, w);
    hide DroppedAt;
    if !StartsOver(win.maxSeq, ks[0], w) && ks[i] <= win.maxSeq { SameNumberBefore(win, t, ks[i], w); }
  }

  lemma SameNumberBefore(win: Window, t: Track, k: UInt32, w: WindowSize)
    requires Denotes(win, t, w) && win.maxSeq - w < k <= win.maxSeq
    ensures var n := t.top - (win.maxSeq - k);
            (Slot(k, w) in win.slots <==> n in t.seen) && (k == win.maxSeq ==> n in t.seen)
  {
    hide Slot;
    var n := t.top - (win.maxSeq - k);
    ResidueUnique(n, k, TWO32, t.top / TWO32);
    assert Slot(n % TWO32, w) in win.slots <==> n in t.seen;
  }
}
