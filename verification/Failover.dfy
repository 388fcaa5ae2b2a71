/** internal/transport/multipath.go: choosing the active path, with the anti-ping-pong cooldown. */
module Failover {
  import opened Basics
  import opened PathModel

  const SWITCH_COOLDOWN := 5_000

  /** Paths by interface name; no interface has the empty name, which stands for "no path". */
  type Table = t: map<string, PathState> | "" !in t

  predicate Usable(t: Table, name: string) { name in t && t[name].status != Down }

  /** What the scan over the paths may come up with: ties are broken by Go's map order. */
  ghost predicate BestOf(t: Table, best: string) {
    if best == "" then forall n :: n in t ==> !Usable(t, n)
    else Usable(t, best) && forall n :: Usable(t, n) ==> t[best].rtt <= t[n].rtt
  }

  /** activePath and lastSwitch. */
  datatype Choice = Choice(active: string, lastSwitch: Option<Time>)

  predicate CoolingDown(c: Choice, cooldown: int, now: Time) {
    c.lastSwitch.Some? && now - c.lastSwitch.value < cooldown
  }

  /** selectBestPathLocked followed by the assignment of its result. */
  function Select(c: Choice, t: Table, best: string, cooldown: int, now: Time): Choice {
    if best == c.active then c
    else if Usable(t, c.active) && CoolingDown(c, cooldown, now) then c
    else Choice(best, Some(now))
  }

  /**
   * A selection finds no path exactly when every path is down; otherwise it yields a usable path, and one
   * with minimal RTT unless the previous choice is kept because it is usable and was made too recently.
   */
  lemma SelectionCorrect(c: Choice, t: Table, best: string, cooldown: int, now: Time)
    requires BestOf(t, best)
    ensures var r := Select(c, t, best, cooldown, now).active;
            && (r == "" <==> forall n :: n in t ==> t[n].status == Down)
            && (r != "" ==> Usable(t, r))
            && ((r != "" ==> forall n :: n in t && t[n].status != Down ==> t[r].rtt <= t[n].rtt)
                || (r == c.active && CoolingDown(c, cooldown, now)))
  {
    assert forall n :: n in t ==> (Usable(t, n) <==> t[n].status != Down);
  }

  // ---- Whole runs ----

  /** One event of a sender's life: the paths as they are afterwards, and, in failover mode, a selection among them. */
  datatype Round = Round(table: Table, selects: bool, best: string, now: Time)

  ghost predicate Proper(rounds: seq<Round>) {
    && (forall i :: 0 <= i < |rounds| && rounds[i].selects ==> BestOf(rounds[i].table, rounds[i].best))
    && forall i, j :: 0 <= i < j < |rounds| ==> rounds[i].now <= rounds[j].now
  }

  function After(rounds: seq<Round>, cooldown: int): Choice {
    if rounds == [] then Choice("", None)
    else
      var r := rounds[|rounds| - 1];
      var c := After(rounds[..|rounds| - 1], cooldown);
      if r.selects then Select(c, r.table, r.best, cooldown, r.now) else c
  }

  lemma AfterExtends(rounds: seq<Round>, i: nat, cooldown: int)
    requires i < |rounds|
    ensures var c, r := After(rounds[..i], cooldown), rounds[i];
            After(rounds[..i + 1], cooldown) == if r.selects then Select(c, r.table, r.best, cooldown, r.now) else c
  {
    hide Select;
    assert rounds[..i + 1][..i] == rounds[..i];
  }

  /** The i-th event changes the active path. */
  predicate ChangesAt(rounds: seq<Round>, i: nat, cooldown: int)
    requires i < |rounds|
  {
    After(rounds[..i + 1], cooldown).active != After(rounds[..i], cooldown).active
  }

  /** ... although the path it leaves is still present and not down. */
  predicate VoluntaryAt(rounds: seq<Round>, i: nat, cooldown: int)
    requires i < |rounds|
  {
    ChangesAt(rounds, i, cooldown) && Usable(rounds[i].table, After(rounds[..i], cooldown).active)
  }

  /** lastSwitch is no earlier than any change so far and no later than anything to come. */
  ghost predicate RemembersChanges(rounds: seq<Round>, n: nat, cooldown: int)
    requires n <= |rounds|
  {
    var last := After(rounds[..n], cooldown).lastSwitch;
    && (forall i :: 0 <= i < n && ChangesAt(rounds, i, cooldown) ==> last.Some? && rounds[i].now <= last.value)
    && (last.Some? ==> forall i :: n <= i < |rounds| ==> last.value <= rounds[i].now)
  }

  lemma {:induction false} RunRemembersChanges(rounds: seq<Round>, n: nat, cooldown: int)
    requires Proper(rounds) && n <= |rounds|
    ensures RemembersChanges(rounds, n, cooldown)
  {
    hide After;
    if n == 0 {
      NoChoiceYet(rounds, cooldown);
    } else {
      RunRemembersChanges(rounds, n - 1, cooldown);
      AfterExtends(rounds, n - 1, cooldown);
    }
  }

  lemma NoChoiceYet(rounds: seq<Round>, cooldown: int)
    ensures After(rounds[..0], cooldown) == Choice("", None)
  {}

  /** No ping-pong: a path that still works is left only after the cooldown since the previous change. */
  lemma NoPingPong(rounds: seq<Round>, i: nat, j: nat, cooldown: int)
    requires Proper(rounds) && i < j < |rounds|
    requires ChangesAt(rounds, i, cooldown) && VoluntaryAt(rounds, j, cooldown)
    ensures rounds[j].now - rounds[i].now >= cooldown
  {
    hide After;
    RunRemembersChanges(rounds, j, cooldown);
    AfterExtends(rounds, j, cooldown);
  }

  // ---- The cooldown ends ----

  /** lastSwitch is the time of an actual change; it is not renewed by selections that change nothing. */
  lemma {:induction false} LastSwitchIsChange(rounds: seq<Round>, n: nat, cooldown: int)
    requires n <= |rounds|
    ensures var last := After(rounds[..n], cooldown).lastSwitch;
            last.Some? ==> exists i :: 0 <= i < n && ChangesAt(rounds, i, cooldown) && rounds[i].now == last.value
  {
    hide After;
    if n == 0 {
      NoChoiceYet(rounds, cooldown);
    } else {
      LastSwitchIsChange(rounds, n - 1, cooldown);
      AfterExtends(rounds, n - 1, cooldown);
      var last := After(rounds[..n], cooldown).lastSwitch;
      if last != After(rounds[..n - 1], cooldown).lastSwitch {
        assert ChangesAt(rounds, n - 1, cooldown) && rounds[n - 1].now == last.value;
      }
    }
  }

  /** No change within the cooldown before the j-th event. */
  predicate Settled(rounds: seq<Round>, j: nat, cooldown: int)
    requires j < |rounds|
  {
    forall i :: 0 <= i < j && ChangesAt(rounds, i, cooldown) ==> rounds[j].now - rounds[i].now >= cooldown
  }

  /** A path that is not down, and none of those has a smaller RTT; or no path, if all are down. */
  predicate IsFastest(t: Table, name: string) {
    if name == "" then forall n :: n in t ==> t[n].status == Down
    else
      && name in t && t[name].status != Down
      && forall n :: n in t && t[n].status != Down ==> t[name].rtt <= t[n].rtt
  }

  /** A selection with no change in the cooldown before it leaves an active path of minimal RTT. */
  lemma CooldownEnds(rounds: seq<Round>, j: nat, cooldown: int)
    requires Proper(rounds) && j < |rounds| && rounds[j].selects && Settled(rounds, j, cooldown)
    ensures IsFastest(rounds[j].table, After(rounds[..j + 1], cooldown).active)
  {
    hide After;
    LastSwitchIsChange(rounds, j, cooldown);
    AfterExtends(rounds, j, cooldown);
  }

  // ---- How often ----

  /** Voluntary changes among rounds[k..n]. */
  function VoluntaryCount(rounds: seq<Round>, k: nat, n: nat, cooldown: int): nat
    requires k <= n <= |rounds|
    decreases n
  {
    if k == n then 0
    else VoluntaryCount(rounds, k, n - 1, cooldown) + (if VoluntaryAt(rounds, n - 1, cooldown) then 1 else 0)
  }

  /** The latest voluntary change among rounds[k..n], if there is one. */
  lemma {:induction false} LatestVoluntary(rounds: seq<Round>, k: nat, n: nat, cooldown: int) returns (i: nat)
    requires Proper(rounds) && k <= n <= |rounds| && VoluntaryCount(rounds, k, n, cooldown) > 0
    ensures k <= i < n && VoluntaryAt(rounds, i, cooldown)
    ensures rounds[i].now - rounds[k].now >= (VoluntaryCount(rounds, k, n, cooldown) - 1) * cooldown
    decreases n
  {
    hide VoluntaryAt;
    if !VoluntaryAt(rounds, n - 1, cooldown) {
      i := LatestVoluntary(rounds, k, n - 1, cooldown);
    } else {
      i := n - 1;
      var earlier := VoluntaryCount(rounds, k, n - 1, cooldown);
      if earlier > 0 {
        var h := LatestVoluntary(rounds, k, n - 1, cooldown);
        VoluntaryIsSpaced(rounds, h, i, cooldown);
        OneMore(earlier - 1, cooldown);
      }
    }
  }

  lemma VoluntaryIsSpaced(rounds: seq<Round>, i: nat, j: nat, cooldown: int)
    requires Proper(rounds) && i < j < |rounds| && VoluntaryAt(rounds, i, cooldown) && VoluntaryAt(rounds, j, cooldown)
    ensures rounds[j].now - rounds[i].now >= cooldown
  {
    hide After;
    NoPingPong(rounds, i, j, cooldown);
  }

  /** In any stretch of time T there are at most T / cooldown + 1 voluntary changes. */
  lemma VoluntaryChangesAreRare(rounds: seq<Round>, k: nat, n: nat, cooldown: int)
    requires Proper(rounds) && k < n <= |rounds| && cooldown > 0
    ensures VoluntaryCount(rounds, k, n, cooldown) <= (rounds[n - 1].now - rounds[k].now) / cooldown + 1
  {
    hide After, VoluntaryAt;
    var count, t := VoluntaryCount(rounds, k, n, cooldown), rounds[n - 1].now - rounds[k].now;
    if count > 0 {
      var i := LatestVoluntary(rounds, k, n, cooldown);
      assert (count - 1) * cooldown <= t;
      DivisionBound(count - 1, t, cooldown);
    }
  }

  lemma DivisionBound(q: int, t: int, d: int)
    requires d > 0 && q * d <= t
    ensures q <= t / d
  {
    var r := t / d;
    MultipleIsFar(d, q - r);
    assert d * (q - r) == q * d - d * r;
  }
}
