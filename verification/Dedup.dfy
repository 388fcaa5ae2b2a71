/**
 * internal/protocol/dedup.go: per-client sliding-window deduplication.
 *
 * `Observe` is the meaning of one arrival on a window seen as a set of occupied slots;
 * the classes below keep that set in 64-bit words and update it in place.
 */
module Dedup {
  import opened Basics

  const DEFAULT_WINDOW_SIZE := 4096

  const MAX_WINDOW_SIZE := 0xFFFF_FFC0

  /** Sizes for which neither the conversion to uint32 nor, in 32 bits, the size of the bit array overflows. */
  type WindowSize = w: int | 1 <= w <= MAX_WINDOW_SIZE witness DEFAULT_WINDOW_SIZE

  /** maxSeq and the indices (seq % windowSize) whose bit is set. */
  datatype Window = Window(maxSeq: UInt32, slots: set<int>)

  datatype Verdict = Verdict(window: Window, duplicate: bool)

  function Slot(s: UInt32, w: WindowSize): int { s % w }

  /** Signed distance from maxSeq to s on the circle of 2^32 numbers; ties at 2^31 keep their sign. */
  function Distance(s: UInt32, maxSeq: UInt32): int {
    var diff := s - maxSeq;
    if diff > TWO31 then diff - TWO32
    else if diff < -TWO31 then diff + TWO32
    else diff
  }

  /** The slot of the i-th number after maxSeq, uint32 wrap-around included. */
  function SlotAhead(maxSeq: UInt32, i: int, w: WindowSize): int { Slot((maxSeq + i) % TWO32, w) }

  /** The slots of the next `shift` numbers after maxSeq. */
  function SlotsAhead(maxSeq: UInt32, shift: int, w: WindowSize): set<int> {
    set i | 1 <= i <= shift :: SlotAhead(maxSeq, i, w)
  }

  /** One arrival of sequence number s; None is a client that was never seen (or was reset). */
  function Observe(win: Option<Window>, s: UInt32, w: WindowSize): Verdict {
    if win.None? then Verdict(Window(s, {Slot(s, w)}), false) else
    var Window(maxSeq, slots) := win.value;
    var diff := Distance(s, maxSeq);
    if diff > 0 then
      var kept := if diff >= w then {} else slots - SlotsAhead(maxSeq, diff, w);
      Verdict(Window(s, kept + {Slot(s, w)}), false)
    else if diff == 0 then Verdict(win.value, true)
    else if -diff >= w then Verdict(Window(s, {Slot(s, w)}), false)
    else Verdict(Window(maxSeq, slots + {Slot(s, w)}), Slot(s, w) in slots)
  }

  /** A 64-bit bitmap word, as the positions of its one-bits. */
  type Word = bits: set<int> | forall b :: b in bits ==> 0 <= b < 64

  function WordCount(w: WindowSize): nat { (w + 63) / 64 }

  /** clientState: the window of one client, as a bit array changed in place. */
  class ClientState {
    var maxSeq: UInt32
    const bitmap: array<Word>
    var inited: bool

    /** The indices below w whose bit is set. */
    ghost function Slots(w: WindowSize): set<int>
      requires bitmap.Length == WordCount(w)
      reads bitmap
    {
      set b | 0 <= b < w && b % 64 in bitmap[b / 64]
    }

    ghost predicate Valid(w: WindowSize)
      reads this, bitmap
    {
      bitmap.Length == WordCount(w) && (!inited ==> Slots(w) == {})
    }

    ghost function View(w: WindowSize): Option<Window>
      requires Valid(w)
      reads this, bitmap
    {
      if inited then Some(Window(maxSeq, Slots(w))) else None
    }

    constructor (w: WindowSize)
      ensures Valid(w) && View(w) == None && fresh(bitmap)
    {
      maxSeq, inited := 0, false;
      bitmap := new Word[WordCount(w)](_ => {});
    }

    method SetBit(s: UInt32, w: WindowSize)
      requires bitmap.Length == WordCount(w)
      modifies bitmap
      ensures Slots(w) == old(Slots(w)) + {Slot(s, w)}
    {
      var idx := s % w;
      bitmap[idx / 64] := bitmap[idx / 64] + {idx % 64};
    }

    method ClearBit(s: UInt32, w: WindowSize)
      requires bitmap.Length == WordCount(w)
      modifies bitmap
      ensures Slots(w) == old(Slots(w)) - {Slot(s, w)}
    {
      var idx := s % w;
      bitmap[idx / 64] := bitmap[idx / 64] - {idx % 64};
    }

    method GetBit(s: UInt32, w: WindowSize) returns (r: bool)
      requires bitmap.Length == WordCount(w)
      ensures r <==> Slot(s, w) in Slots(w)
    {
      var idx := s % w;
      r := idx % 64 in bitmap[idx / 64];
    }

    method ClearAll(w: WindowSize)
      requires bitmap.Length == WordCount(w)
      modifies bitmap
      ensures Slots(w) == {}
    {
      for i := 0 to bitmap.Length
        invariant forall k :: 0 <= k < i ==> bitmap[k] == {}
      {
        bitmap[i] := {};
      }
    }

    /** Clears the slots of the `shift` numbers the window moves over. */
    method SlideForward(shift: int, w: WindowSize)
      requires bitmap.Length == WordCount(w) && shift > 0
      modifies bitmap
      ensures Slots(w) ==
              if shift >= w then {} else old(Slots(w)) - SlotsAhead(maxSeq, shift, w)
    {
      if shift >= w {
        ClearAll(w);
      } else {
        var i := 1;
        while i <= shift
          invariant 1 <= i <= shift + 1
          invariant Slots(w) == old(Slots(w)) - SlotsAhead(maxSeq, i - 1, w)
        {
          ClearBit((maxSeq + i) % TWO32, w);
          assert SlotsAhead(maxSeq, i, w) == SlotsAhead(maxSeq, i - 1, w) + {SlotAhead(maxSeq, i, w)};
          i := i + 1;
        }
      }
    }

    /** The part of IsDuplicate that runs under the client's own lock. */
    method Arrive(s: UInt32, w: WindowSize) returns (duplicate: bool)
      requires Valid(w)
      modifies this, bitmap
      ensures Valid(w)
      ensures var v := Observe(old(View(w)), s, w); View(w) == Some(v.window) && duplicate == v.duplicate
    {
      if !inited {
        inited := true;
        maxSeq := s;
        SetBit(s, w);
        assert Slots(w) == {Slot(s, w)};
        return false;
      }
      ghost var slots := Slots(w);
      var diff := s - maxSeq;
      if diff > TWO31 {
        diff := diff - TWO32;
      } else if diff < -TWO31 {
        diff := diff + TWO32;
      }
      if diff > 0 {
        SlideForward(diff, w);
        ghost var kept := Slots(w);
        maxSeq := s;
        SetBit(s, w);
        assert Slots(w) == kept + {Slot(s, w)};
        return false;
      }
      if diff == 0 {
        return true;
      }
      var behind := -diff;
      if behind >= w {
        inited := false;
        ClearAll(w);
        inited := true;
        maxSeq := s;
        SetBit(s, w);
        assert Slots(w) == {Slot(s, w)};
        return false;
      }
      var seen := GetBit(s, w);
      if seen {
        assert slots + {Slot(s, w)} == slots;
        return true;
      }
      SetBit(s, w);
      assert Slots(w) == slots + {Slot(s, w)};
      return false;
    }
  }

  function Lookup(m: map<ClientID, Window>, id: ClientID): Option<Window> {
    if id in m then Some(m[id]) else None
  }

  /** Deduplicator: one window per client, created on first use and dropped by Reset. */
  class Deduplicator {
    const windowSize: WindowSize
    var clients: map<ClientID, ClientState>
    /** What the bit arrays mean: the window of every client heard of since its last Reset. */
    ghost var windows: map<ClientID, Window>
    ghost var Repr: set<object>

    ghost predicate Valid()
      reads this, Repr
      ensures Valid() ==> this in Repr
    {
      && this in Repr
      && windows.Keys <= clients.Keys
      && (forall c :: c in clients ==> Owned(clients[c]) && clients[c].View(windowSize) == Lookup(windows, c))
      && (forall c, d :: c in clients && d in clients && c != d ==>
            clients[c] != clients[d] && clients[c].bitmap != clients[d].bitmap)
    }

    ghost predicate Owned(cs: ClientState)
      reads this, Repr
    {
      cs in Repr && cs.bitmap in Repr && cs.Valid(windowSize)
    }

    constructor (size: int)
      requires size <= MAX_WINDOW_SIZE
      ensures Valid() && windows == map[] && fresh(Repr)
      ensures windowSize == if size <= 0 then DEFAULT_WINDOW_SIZE else size
    {
      windowSize := if size <= 0 then DEFAULT_WINDOW_SIZE else size;
      clients, windows := map[], map[];
      Repr := {this};
    }

    /** The state of a client, created empty on its first packet. */
    method StateOf(id: ClientID) returns (cs: ClientState)
      requires Valid()
      modifies this
      ensures Valid() && fresh(Repr - old(Repr))
      ensures id in clients && clients[id] == cs && windows == old(windows)
    {
      if id in clients {
        cs := clients[id];
      } else {
        cs := new ClientState(windowSize);
        clients := clients[id := cs];
        Repr := Repr + {cs, cs.bitmap};
      }
    }

    method IsDuplicate(id: ClientID, s: UInt32) returns (duplicate: bool)
      requires Valid()
      modifies Repr
      ensures Valid() && fresh(Repr - old(Repr))
      ensures var v := Observe(Lookup(old(windows), id), s, windowSize);
              duplicate == v.duplicate && windows == old(windows)[id := v.window]
    {
      var cs := StateOf(id);
      ghost var v := Observe(Lookup(windows, id), s, windowSize);
      label called:
      duplicate := cs.Arrive(s, windowSize);
      windows := windows[id := v.window];
      forall c | c in clients
        ensures Owned(clients[c]) && clients[c].View(windowSize) == Lookup(windows, c)
      {
        if c != id {
          assert clients[c].View(windowSize) == old@called(clients[c].View(windowSize));
        }
      }
    }

    method Reset(id: ClientID)
      requires Valid()
      modifies this
      ensures Valid() && Repr == old(Repr)
      ensures windows == old(windows) - {id}
    {
      clients := clients - {id};
      windows := windows - {id};
    }
  }
}
