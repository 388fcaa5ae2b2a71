/** internal/transport/multipath.go: the life of one network path, as a timed state machine. */
module PathModel {
  import opened Basics

  /** Milliseconds. */
  type Time = int

  const RTT_SAMPLES := 10
  const MISS_THRESHOLD := 5
  const STALE_TIMEOUT := 5_000
  const RECYCLE_INTERVAL := 10_000
  const RECYCLE_ATTEMPTS := 3
  const RECYCLE_BACKOFF := 60_000

  datatype Status = Active | Suspect | Down

  /** An IP address, IPv4 or IPv6, by its number. */
  type IP = int

  /** lastRecycled is None as long as the Go field holds the zero time. */
  datatype PathState = PathState(
    localAddr: IP, rtt: int, samples: seq<int>, lastRecv: Time, status: Status, missCount: nat,
    txBytes: nat, lastRecycled: Option<Time>, recycleCount: nat)

  function NewPath(localAddr: IP, now: Time): PathState {
    PathState(localAddr, 0, [], now, Active, 0, 0, None, 0)
  }

  // ---- RTT ----

  function Total(ds: seq<int>): int {
    if ds == [] then 0 else Total(ds[..|ds| - 1]) + ds[|ds| - 1]
  }

  /** Go's integer division truncates toward zero. */
  function Quotient(a: int, n: int): int
    requires n > 0
  {
    if a >= 0 then a / n else -(-a / n)
  }

  function Average(ds: seq<int>): int {
    if ds == [] then 0 else Quotient(Total(ds), |ds|)
  }

  /** averageDuration. */
  method AverageDuration(ds: seq<int>) returns (avg: int)
    ensures avg == Average(ds)
  {
    if |ds| == 0 {
      return 0;
    }
    var sum := 0;
    for i := 0 to |ds|
      invariant sum == Total(ds[..i])
    {
      assert ds[..i + 1][..i] == ds[..i];
      sum := sum + ds[i];
    }
    assert ds[..|ds|] == ds;
    avg := if sum >= 0 then sum / |ds| else -(-sum / |ds|);
  }

  function LastSamples(ds: seq<int>): seq<int> {
    if |ds| > RTT_SAMPLES then ds[|ds| - RTT_SAMPLES..] else ds
  }

  // ---- What happens to a path ----

  function Measured(p: PathState, rtt: int, now: Time): PathState {
    var samples := LastSamples(p.samples + [rtt]);
    p.(samples := samples, rtt := Average(samples), lastRecv := now,
       missCount := 0, recycleCount := 0, status := Active)
  }

  function Missed(p: PathState): PathState {
    p.(missCount := p.missCount + 1, status := if p.missCount + 1 >= MISS_THRESHOLD then Down else p.status)
  }

  function Wrote(p: PathState, ok: bool, n: nat): PathState {
    if ok then p.(txBytes := p.txBytes + n) else p.(status := Suspect)
  }

  datatype Verdict = Keep | GiveUp | Recycle

  /** What CheckAndRecycleStalePaths decides about a path. */
  function Judge(p: PathState, now: Time): Verdict {
    if p.status == Down then
      if p.recycleCount >= RECYCLE_ATTEMPTS && Elapsed(p.lastRecycled, now, RECYCLE_BACKOFF) then Recycle else Keep
    else if now - p.lastRecv <= STALE_TIMEOUT then Keep
    else if p.recycleCount >= RECYCLE_ATTEMPTS then GiveUp
    else if !Elapsed(p.lastRecycled, now, RECYCLE_INTERVAL) then Keep
    else Recycle
  }

  /** More than d has passed since t; the zero time is longer ago than anything. */
  predicate Elapsed(t: Option<Time>, now: Time, d: int) { t.Some? ==> now - t.value > d }

  function Recycled(p: PathState, now: Time): PathState {
    p.(status := Active, lastRecycled := Some(now), recycleCount := p.recycleCount + 1)
  }

  function Checked(p: PathState, now: Time): PathState {
    match Judge(p, now)
    case Keep => p
    case GiveUp => p.(status := Down)
    case Recycle => Recycled(p, now)
  }

  datatype Event = Ack(rtt: int) | Miss | Write(ok: bool, n: nat) | Check
  datatype Timed = Timed(event: Event, now: Time)

  function Step(p: PathState, e: Timed): PathState {
    match e.event
    case Ack(rtt) => Measured(p, rtt, e.now)
    case Miss => Missed(p)
    case Write(ok, n) => Wrote(p, ok, n)
    case Check => Checked(p, e.now)
  }

  // ---- Whole runs of one path ----

  /** A path created at `born` on localAddr, after the given events. */
  function After(localAddr: IP, born: Time, events: seq<Timed>): PathState {
    if events == [] then NewPath(localAddr, born)
    else Step(After(localAddr, born, events[..|events| - 1]), events[|events| - 1])
  }

  predicate Ordered(born: Time, events: seq<Timed>) {
    && (forall i :: 0 <= i < |events| ==> born <= events[i].now)
    && forall i, j :: 0 <= i < j < |events| ==> events[i].now <= events[j].now
  }

  /** The socket is recycled by the i-th event. */
  predicate RecyclesAt(localAddr: IP, born: Time, events: seq<Timed>, i: nat)
    requires i < |events|
  {
    events[i].event.Check? && Judge(After(localAddr, born, events[..i]), events[i].now) == Recycle
  }

  lemma AfterExtends(localAddr: IP, born: Time, events: seq<Timed>, i: nat)
    requires i < |events|
    ensures After(localAddr, born, events[..i + 1]) == Step(After(localAddr, born, events[..i]), events[i])
  {
    hide Step;
    assert events[..i + 1][..i] == events[..i];
  }

  /** Recycles among events[k..n]. */
  function RecyclesBetween(localAddr: IP, born: Time, events: seq<Timed>, k: nat, n: nat): nat
    requires k <= n <= |events|
    decreases n
  {
    if k == n then 0
    else
      RecyclesBetween(localAddr, born, events, k, n - 1) +
      (if RecyclesAt(localAddr, born, events, n - 1) then 1 else 0)
  }

  /** What the first n events say about the path's counters; k is where the last recovery ended. */
  ghost predicate Tracks(localAddr: IP, born: Time, events: seq<Timed>, n: nat, k: nat)
    requires k <= n <= |events|
  {
    var p := After(localAddr, born, events[..n]);
    && (k > 0 ==> events[k - 1].event.Ack? && p.lastRecv == events[k - 1].now)
    && (k == 0 ==> p.lastRecv == born)
    && (forall i :: k <= i < n ==> !events[i].event.Ack?)
    && p.recycleCount == RecyclesBetween(localAddr, born, events, k, n)
    && (forall i :: 0 <= i < n && RecyclesAt(localAddr, born, events, i) ==>
          p.lastRecycled.Some? && p.lastRecycled.value >= events[i].now)
    && (p.lastRecycled.Some? ==> forall i :: n <= i < |events| ==> p.lastRecycled.value <= events[i].now)
    && (p.lastRecycled.Some? ==>
          exists i :: 0 <= i < n && RecyclesAt(localAddr, born, events, i) && events[i].now == p.lastRecycled.value)
    && (p.recycleCount > 0 ==> p.lastRecycled.Some? && p.lastRecycled.value > p.lastRecv + STALE_TIMEOUT)
    && ((forall i :: k <= i < n ==> !events[i].event.Miss?) && p.recycleCount < RECYCLE_ATTEMPTS ==> p.status != Down)
  }

  /** The events since the last recovery (or since the start). */
  function Recovered(events: seq<Timed>, n: nat): (k: nat)
    requires n <= |events|
    ensures k <= n
  {
    if n == 0 then 0 else if events[n - 1].event.Ack? then n else Recovered(events, n - 1)
  }

  /** The counters of a path, as they must stand after events of which the last recovery ended at k. */
  lemma TracksStep(localAddr: IP, born: Time, events: seq<Timed>, n: nat, k: nat)
    requires Ordered(born, events) && k <= n < |events| && Tracks(localAddr, born, events, n, k)
    ensures Tracks(localAddr, born, events, n + 1, if events[n].event.Ack? then n + 1 else k)
  {
    hide After, Average, LastSamples;
    AfterExtends(localAddr, born, events, n);
  }

  lemma {:induction false} RunTracks(localAddr: IP, born: Time, events: seq<Timed>, n: nat)
    requires Ordered(born, events) && n <= |events|
    ensures Tracks(localAddr, born, events, n, Recovered(events, n))
  {
    if n == 0 {
      assert events[..0] == [];
    } else {
      hide Tracks;
      RunTracks(localAddr, born, events, n - 1);
      TracksStep(localAddr, born, events, n - 1, Recovered(events, n - 1));
    }
  }

  /** Two recycles of a path are always more than 10 s apart. */
  lemma RecyclesAreSpaced(localAddr: IP, born: Time, events: seq<Timed>, i: nat, j: nat)
    requires Ordered(born, events) && i < j < |events|
    requires RecyclesAt(localAddr, born, events, i) && RecyclesAt(localAddr, born, events, j)
    ensures events[j].now - events[i].now > RECYCLE_INTERVAL
  {
    hide After, RecyclesBetween;
    RunTracks(localAddr, born, events, j);
  }

  /** Without a recovery, a recycle after the third is more than 60 s after every earlier one. */
  lemma RecyclesBackOff(localAddr: IP, born: Time, events: seq<Timed>, i: nat, j: nat)
    requires Ordered(born, events) && i < j < |events|
    requires RecyclesAt(localAddr, born, events, i) && RecyclesAt(localAddr, born, events, j)
    requires RecyclesBetween(localAddr, born, events, Recovered(events, j), j) >= RECYCLE_ATTEMPTS
    ensures events[j].now - events[i].now > RECYCLE_BACKOFF
  {
    hide After, RecyclesBetween;
    RunTracks(localAddr, born, events, j);
  }

  /** No recycle within 5 s of an ack, even if the path was marked down in between. */
  lemma NoRecycleAfterAck(localAddr: IP, born: Time, events: seq<Timed>, i: nat, j: nat)
    requires Ordered(born, events) && i < j < |events|
    requires events[i].event.Ack? && RecyclesAt(localAddr, born, events, j)
    ensures events[j].now - events[i].now > STALE_TIMEOUT
  {
    hide After, RecyclesBetween;
    RunTracks(localAddr, born, events, j);
    assert Recovered(events, j) > i;
  }

  /** When the path was last heard from. */
  function LastHeard(born: Time, events: seq<Timed>, n: nat): Time
    requires n <= |events|
  {
    var k := Recovered(events, n);
    if k == 0 then born else events[k - 1].now
  }

  /** Every earlier recycle is more than d ago. */
  ghost predicate LongSinceRecycle(localAddr: IP, born: Time, events: seq<Timed>, j: nat, d: int)
    requires j < |events|
  {
    forall i :: 0 <= i < j && RecyclesAt(localAddr, born, events, i) ==> events[j].now - events[i].now > d
  }

  /**
   * A path that has gone silent for 5 s, without misses and without three vain attempts, is recycled at the
   * first check more than 10 s after its last recycle.
   */
  lemma SilentPathIsRecycled(localAddr: IP, born: Time, events: seq<Timed>, j: nat)
    requires Ordered(born, events) && j < |events| && events[j].event.Check?
    requires forall i :: Recovered(events, j) <= i < j ==> !events[i].event.Miss?
    requires RecyclesBetween(localAddr, born, events, Recovered(events, j), j) < RECYCLE_ATTEMPTS
    requires events[j].now - LastHeard(born, events, j) > STALE_TIMEOUT
    ensures RecyclesAt(localAddr, born, events, j) <==> LongSinceRecycle(localAddr, born, events, j, RECYCLE_INTERVAL)
  {
    hide After, RecyclesBetween;
    RunTracks(localAddr, born, events, j);
  }

  // ---- The status of a path ----

  /** A new path is active, as if heard from at its creation, and has no history. */
  lemma PathStartsActive(localAddr: IP, born: Time)
    ensures var p := After(localAddr, born, []);
            && p.localAddr == localAddr && p.status == Active && p.lastRecv == born && p.missCount == p.txBytes == 0
            && p.samples == [] && p.rtt == 0 && p.lastRecycled == None && p.recycleCount == 0
  {}

  /** A check that does not recycle takes the path down after three vain attempts, and else changes nothing. */
  lemma CheckWithoutRecycle(localAddr: IP, born: Time, events: seq<Timed>, i: nat)
    requires Ordered(born, events) && i < |events| && events[i].event.Check? && !RecyclesAt(localAddr, born, events, i)
    ensures var before := After(localAddr, born, events[..i]);
            After(localAddr, born, events[..i + 1]) ==
              if && events[i].now - LastHeard(born, events, i) > STALE_TIMEOUT
                 && RecyclesBetween(localAddr, born, events, Recovered(events, i), i) >= RECYCLE_ATTEMPTS
              then before.(status := Down) else before
  {
    hide After, RecyclesBetween;
    RunTracks(localAddr, born, events, i);
    AfterExtends(localAddr, born, events, i);
  }

  /** A recycled path is active again, with its RTT history, and remembers when that was. */
  lemma RecycledIsActive(localAddr: IP, born: Time, events: seq<Timed>, i: nat)
    requires i < |events| && RecyclesAt(localAddr, born, events, i)
    ensures var before, after := After(localAddr, born, events[..i]), After(localAddr, born, events[..i + 1]);
            && after.status == Active && after.lastRecycled == Some(events[i].now)
            && after.samples == before.samples && after.rtt == before.rtt && after.lastRecv == before.lastRecv
  {
    hide After, Judge;
    AfterExtends(localAddr, born, events, i);
  }

  /** An RTT update revives the path whatever it went through, and forgets the misses. */
  lemma AckRevives(localAddr: IP, born: Time, events: seq<Timed>, i: nat)
    requires i < |events| && events[i].event.Ack?
    ensures var after := After(localAddr, born, events[..i + 1]);
            after.status == Active && after.missCount == 0 && after.recycleCount == 0 && after.lastRecv == events[i].now
  {
    hide After, Average, LastSamples;
    AfterExtends(localAddr, born, events, i);
  }

  /** Misses among events[k..n]. */
  function MissesBetween(events: seq<Timed>, k: nat, n: nat): nat
    requires k <= n <= |events|
    decreases n
  {
    if k == n then 0 else MissesBetween(events, k, n - 1) + (if events[n - 1].event.Miss? then 1 else 0)
  }

  lemma {:induction false} MissCountIsExact(localAddr: IP, born: Time, events: seq<Timed>, n: nat)
    requires n <= |events|
    ensures After(localAddr, born, events[..n]).missCount == MissesBetween(events, Recovered(events, n), n)
  {
    if n == 0 {
      assert events[..0] == [];
    } else {
      hide After, Judge, Average, LastSamples;
      MissCountIsExact(localAddr, born, events, n - 1);
      AfterExtends(localAddr, born, events, n - 1);
    }
  }

  /** The fifth miss since the last recovery takes the path down, the first four leave its status alone. */
  lemma FifthMissTakesDown(localAddr: IP, born: Time, events: seq<Timed>, i: nat)
    requires i < |events| && events[i].event.Miss?
    ensures var before := After(localAddr, born, events[..i]);
            After(localAddr, born, events[..i + 1]).status ==
              if MissesBetween(events, Recovered(events, i), i) + 1 >= 5 then Down else before.status
  {
    hide After, MissesBetween;
    MissCountIsExact(localAddr, born, events, i);
    AfterExtends(localAddr, born, events, i);
  }

  /** Nothing between the two events brings the path back: no RTT update, no recycle, no failing write. */
  predicate NothingRevives(localAddr: IP, born: Time, events: seq<Timed>, i: nat, j: nat)
    requires i <= j <= |events|
  {
    forall k :: i <= k < j ==>
      && !events[k].event.Ack? && !RecyclesAt(localAddr, born, events, k)
      && (events[k].event.Write? ==> events[k].event.ok)
  }

  lemma {:induction false} StaysDown(localAddr: IP, born: Time, events: seq<Timed>, i: nat, j: nat)
    requires i <= j <= |events| && NothingRevives(localAddr, born, events, i, j)
    requires After(localAddr, born, events[..i]).status == Down
    ensures After(localAddr, born, events[..j]).status == Down
    decreases j
  {
    if i < j {
      hide After;
      StaysDown(localAddr, born, events, i, j - 1);
      AfterExtends(localAddr, born, events, j - 1);
    }
  }

  /** The i-th event is a check that gives the path up: silent for more than 5 s after three vain attempts. */
  predicate GivesUpAt(localAddr: IP, born: Time, events: seq<Timed>, i: nat)
    requires i < |events|
  {
    && events[i].event.Check? && !RecyclesAt(localAddr, born, events, i)
    && events[i].now - LastHeard(born, events, i) > STALE_TIMEOUT
    && RecyclesBetween(localAddr, born, events, Recovered(events, i), i) >= RECYCLE_ATTEMPTS
  }

  lemma {:induction false} SameRecovery(localAddr: IP, born: Time, events: seq<Timed>, i: nat, j: nat)
    requires i <= j <= |events| && forall k :: i <= k < j ==> !events[k].event.Ack?
    ensures Recovered(events, j) == Recovered(events, i)
    ensures RecyclesBetween(localAddr, born, events, Recovered(events, i), i)
         <= RecyclesBetween(localAddr, born, events, Recovered(events, i), j)
    decreases j
  {
    hide RecyclesAt;
    if i < j { SameRecovery(localAddr, born, events, i, j - 1); }
  }

  /**
   * A path given up after three attempts is down, and unless something else revives it, it is tried again at the
   * first check more than 60 s after its last recycle.
   */
  lemma GivenUpPathIsRetried(localAddr: IP, born: Time, events: seq<Timed>, i: nat, j: nat)
    requires Ordered(born, events) && i < j < |events| && events[j].event.Check?
    requires GivesUpAt(localAddr, born, events, i) && NothingRevives(localAddr, born, events, i + 1, j)
    ensures After(localAddr, born, events[..j]).status == Down
    ensures RecyclesAt(localAddr, born, events, j) <==> LongSinceRecycle(localAddr, born, events, j, RECYCLE_BACKOFF)
  {
    hide After, RecyclesBetween;
    CheckWithoutRecycle(localAddr, born, events, i);
    StaysDown(localAddr, born, events, i + 1, j);
    SameRecovery(localAddr, born, events, i, j);
    RunTracks(localAddr, born, events, j);
  }

  /** A path that misses took down before three attempts waits for an answer: its socket is not recycled. */
  lemma MissedPathWaits(localAddr: IP, born: Time, events: seq<Timed>, i: nat, j: nat)
    requires Ordered(born, events) && i < j < |events|
    requires events[i].event.Miss? && MissesBetween(events, Recovered(events, i), i) + 1 >= 5
    requires NothingRevives(localAddr, born, events, i + 1, j)
    requires RecyclesBetween(localAddr, born, events, Recovered(events, j), j) < RECYCLE_ATTEMPTS
    ensures !RecyclesAt(localAddr, born, events, j)
  {
    hide After, RecyclesBetween, MissesBetween;
    FifthMissTakesDown(localAddr, born, events, i);
    StaysDown(localAddr, born, events, i + 1, j);
    RunTracks(localAddr, born, events, j);
  }

  /** A failing write makes the path suspect, a successful one leaves its status alone. */
  lemma FailingWriteIsSuspect(localAddr: IP, born: Time, events: seq<Timed>, i: nat)
    requires i < |events| && events[i].event.Write?
    ensures var before, after := After(localAddr, born, events[..i]), After(localAddr, born, events[..i + 1]);
            after.status == if events[i].event.ok then before.status else Suspect
  {
    hide After;
    AfterExtends(localAddr, born, events, i);
  }

  /** The bytes of all successful writes. */
  function BytesWritten(events: seq<Timed>): nat {
    if events == [] then 0
    else
      var last := events[|events| - 1].event;
      BytesWritten(events[..|events| - 1]) + if last.Write? && last.ok then last.n else 0
  }

  /** txBytes counts exactly the successful writes, through recycling and all. */
  lemma {:induction false} TxBytesAreExact(localAddr: IP, born: Time, events: seq<Timed>)
    ensures After(localAddr, born, events).txBytes == BytesWritten(events)
  {
    if events != [] {
      hide Judge, Average, LastSamples;
      TxBytesAreExact(localAddr, born, events[..|events| - 1]);
    }
  }

  /** recycleCount is the number of recycles since the last recovery. */
  lemma RecycleCountIsExact(localAddr: IP, born: Time, events: seq<Timed>)
    requires Ordered(born, events)
    ensures After(localAddr, born, events).recycleCount
         == RecyclesBetween(localAddr, born, events, Recovered(events, |events|), |events|)
  {
    RunTracks(localAddr, born, events, |events|);
    assert events[..|events|] == events;
  }

  // ---- The RTT window ----

  /** Every RTT ever measured on the path. */
  function Measurements(events: seq<Timed>): seq<int> {
    if events == [] then []
    else Measurements(events[..|events| - 1]) +
         (if events[|events| - 1].event.Ack? then [events[|events| - 1].event.rtt] else [])
  }

  lemma LastSamplesAppend(ds: seq<int>, d: int)
    ensures LastSamples(LastSamples(ds) + [d]) == LastSamples(ds + [d])
  {}

  lemma EmptyAverage()
    ensures LastSamples([]) == [] && Average([]) == 0
  {}

  /** The last ten elements, or all if there are fewer. */
  function LastTen(ds: seq<int>): seq<int> { ds[Max(0, |ds| - 10)..] }

  /** The kept samples are the last ten of the full history; recycling the socket does not lose them. */
  lemma SamplesAreRecentHistory(localAddr: IP, born: Time, events: seq<Timed>)
    ensures After(localAddr, born, events).samples == LastTen(Measurements(events))
    ensures After(localAddr, born, events).rtt == Average(LastTen(Measurements(events)))
  {
    hide After, Average, Measurements;
    SamplesOfHistory(localAddr, born, events);
  }

  lemma {:induction false} SamplesOfHistory(localAddr: IP, born: Time, events: seq<Timed>)
    ensures After(localAddr, born, events).samples == LastSamples(Measurements(events))
    ensures After(localAddr, born, events).rtt == Average(LastSamples(Measurements(events)))
  {
    hide LastSamples, Average, Judge;
    if events == [] {
      EmptyAverage();
    } else {
      var n := |events| - 1;
      SamplesOfHistory(localAddr, born, events[..n]);
      if events[n].event.Ack? { LastSamplesAppend(Measurements(events[..n]), events[n].event.rtt); }
      else { assert Measurements(events) == Measurements(events[..n]) + [] == Measurements(events[..n]); }
    }
  }

  lemma {:induction false} TotalBounds(ds: seq<int>, lo: int, hi: int)
    requires forall d :: d in ds ==> lo <= d <= hi
    ensures |ds| * lo <= Total(ds) <= |ds| * hi
  {
    if ds != [] {
      var n := |ds| - 1;
      assert forall d :: d in ds[..n] ==> d in ds;
      assert ds[n] in ds;
      TotalBounds(ds[..n], lo, hi);
      OneMore(n, lo);
      OneMore(n, hi);
    }
  }

  lemma QuotientBounds(a: int, n: int, lo: int, hi: int)
    requires n > 0 && n * lo <= a <= n * hi
    ensures lo <= Quotient(a, n) <= hi
  {
    var q := Quotient(a, n);
    QuotientRemainder(a, n);
    MultipleIsFar(n, lo - q);
    MultipleIsFar(n, q - hi);
    assert n * (lo - q) == n * lo - n * q && n * (q - hi) == n * q - n * hi;
  }

  lemma QuotientRemainder(a: int, n: int)
    requires n > 0
    ensures -n < a - n * Quotient(a, n) < n
  {
    if a < 0 { assert n * -(-a / n) == -(n * (-a / n)); }
  }

  /** The total is the sum: every sample counts once. */
  lemma {:induction false} TotalAdds(a: seq<int>, b: seq<int>)
    ensures Total(a + b) == Total(a) + Total(b)
    ensures forall d: int :: Total([d]) == d
  {
    assert forall d: int :: [d][..0] == [];
    if b == [] {
      assert a + b == a;
    } else {
      var n := |b| - 1;
      TotalAdds(a, b[..n]);
      assert (a + b)[..|a + b| - 1] == a + b[..n];
    }
  }

  /** The average is the total divided by the number of samples, truncated toward zero. */
  lemma AverageIsMean(ds: seq<int>)
    requires ds != []
    ensures var rest := Total(ds) - |ds| * Average(ds);
            if Total(ds) >= 0 then 0 <= rest < |ds| else -|ds| < rest <= 0
  {
    hide Total;
    QuotientTruncates(Total(ds), |ds|);
  }

  lemma QuotientTruncates(a: int, n: int)
    requires n > 0
    ensures if a >= 0 then 0 <= a - n * Quotient(a, n) < n else -n < a - n * Quotient(a, n) <= 0
  {
    if a < 0 { assert n * -(-a / n) == -(n * (-a / n)); }
  }

  /** The average of at least one sample lies between any bounds of the samples. */
  lemma AverageBounds(ds: seq<int>, lo: int, hi: int)
    requires ds != [] && forall d :: d in ds ==> lo <= d <= hi
    ensures lo <= Average(ds) <= hi
  {
    hide Total, Quotient;
    TotalBounds(ds, lo, hi);
    QuotientBounds(Total(ds), |ds|, lo, hi);
  }
}
