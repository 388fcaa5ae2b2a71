/**
 * internal/transport/multipath.go: whole runs of a sender. Every operation of MultiPathSender is one step here;
 * the methods in Multipath.dfy are proved to take exactly these steps.
 */
module SenderRuns {
  import opened Basics
  import opened PathModel
  import opened Failover
  import opened Interfaces

  /** The paths, activePath with lastSwitch, and whether the send mode is failover. */
  datatype Sender = Sender(table: Table, choice: Choice, failover: bool)

  datatype Operation =
    | RttUpdate(name: string, rtt: int)
    | MissCounted(name: string)
    | ModeSet(failover: bool)
    | InterfacesChanged(added: seq<Info>, removed: seq<Info>)
    | StaleChecked
    | SentOnAll(n: nat, ok: set<string>)
    | SentOn(via: string, n: nat, ok: set<string>)

  function OnOnePath(t: Table, name: string, e: Timed): Table {
    if name in t then t[name := Step(t[name], e)] else t
  }

  function TableAfter(t: Table, op: Operation, v4: bool, now: Time): Table {
    match op
    case RttUpdate(name, rtt) => OnOnePath(t, name, Timed(Ack(rtt), now))
    case MissCounted(name) => OnOnePath(t, name, Timed(Miss, now))
    case ModeSet(_) => t
    case InterfacesChanged(added, removed) =>
      if exists i :: 0 <= i < |added| && added[i].name == "" then t
      else Added(Removed(t, removed), added, v4, now)
    case StaleChecked => map name | name in t :: Checked(t[name], now)
    case SentOnAll(n, ok) =>
      map name | name in t :: if Usable(t, name) then Wrote(t[name], name in ok, n) else t[name]
    case SentOn(via, n, ok) => OnOnePath(t, via, Timed(Write(via in ok, n), now))
  }

  function FailoverAfter(s: Sender, op: Operation): bool { if op.ModeSet? then op.failover else s.failover }

  /** The operation ends with a selection of the active path. */
  predicate Selects(s: Sender, op: Operation) {
    && FailoverAfter(s, op)
    && (op.ModeSet? || op.InterfacesChanged? || ((op.RttUpdate? || op.MissCounted?) && op.name in s.table))
  }

  /** One operation; best is what the scan over the paths comes up with, if the operation selects. */
  function Operate(s: Sender, op: Operation, best: string, v4: bool, cooldown: int, now: Time): Sender {
    var t := TableAfter(s.table, op, v4, now);
    Sender(t, if Selects(s, op) then Select(s.choice, t, best, cooldown, now) else s.choice, FailoverAfter(s, op))
  }

  lemma SentOnTable(s: Sender, via: string, n: nat, ok: set<string>, v4: bool, cooldown: int, now: Time)
    ensures Operate(s, SentOn(via, n, ok), "", v4, cooldown, now)
         == s.(table := if via in s.table then s.table[via := Wrote(s.table[via], via in ok, n)] else s.table)
  {
    hide Wrote;
  }

  lemma SentOnAllTable(s: Sender, n: nat, ok: set<string>, v4: bool, cooldown: int, now: Time)
    ensures Operate(s, SentOnAll(n, ok), "", v4, cooldown, now) == s.(table :=
            map name | name in s.table :: if Usable(s.table, name) then Wrote(s.table[name], name in ok, n)
                                          else s.table[name])
  {
    hide Wrote;
  }

  lemma StaleCheckedTable(s: Sender, v4: bool, cooldown: int, now: Time)
    ensures Operate(s, StaleChecked, "", v4, cooldown, now)
         == s.(table := map name | name in s.table :: Checked(s.table[name], now))
  {
    hide Checked;
  }

  // ---- Runs ----

  datatype Operated = Operated(op: Operation, best: string, now: Time)

  function RunOf(ops: seq<Operated>, failover: bool, v4: bool, cooldown: int): Sender {
    if ops == [] then Sender(map[], Choice("", None), failover)
    else
      var n := |ops| - 1;
      Operate(RunOf(ops[..n], failover, v4, cooldown), ops[n].op, ops[n].best, v4, cooldown, ops[n].now)
  }

  lemma RunExtends(ops: seq<Operated>, i: nat, failover: bool, v4: bool, cooldown: int)
    requires i < |ops|
    ensures RunOf(ops[..i + 1], failover, v4, cooldown) ==
            Operate(RunOf(ops[..i], failover, v4, cooldown), ops[i].op, ops[i].best, v4, cooldown, ops[i].now)
  {
    hide Operate;
    assert ops[..i + 1][..i] == ops[..i];
  }

  /** Selections yield a best path among those present, and the clock does not run backwards. */
  ghost predicate Possible(ops: seq<Operated>, failover: bool, v4: bool, cooldown: int) {
    && (forall i :: 0 <= i < |ops| && Selects(RunOf(ops[..i], failover, v4, cooldown), ops[i].op) ==>
          BestOf(TableAfter(RunOf(ops[..i], failover, v4, cooldown).table, ops[i].op, v4, ops[i].now), ops[i].best))
    && forall i, j :: 0 <= i < j < |ops| ==> ops[i].now <= ops[j].now
  }

  /** What the i-th operation means for the active path. */
  function RoundOf(ops: seq<Operated>, i: nat, failover: bool, v4: bool, cooldown: int): Round
    requires i < |ops|
  {
    var s := RunOf(ops[..i], failover, v4, cooldown);
    Round(TableAfter(s.table, ops[i].op, v4, ops[i].now), Selects(s, ops[i].op), ops[i].best, ops[i].now)
  }

  function RoundsOf(ops: seq<Operated>, failover: bool, v4: bool, cooldown: int): (rounds: seq<Round>)
    ensures |rounds| == |ops|
  {
    seq(|ops|, i requires 0 <= i < |ops| => RoundOf(ops, i, failover, v4, cooldown))
  }

  lemma RoundsExtend(ops: seq<Operated>, n: nat, failover: bool, v4: bool, cooldown: int)
    requires n <= |ops|
    ensures RoundsOf(ops[..n], failover, v4, cooldown) == RoundsOf(ops, failover, v4, cooldown)[..n]
  {
    hide RunOf, TableAfter, Selects;
    forall i | 0 <= i < n
      ensures RoundOf(ops[..n], i, failover, v4, cooldown) == RoundOf(ops, i, failover, v4, cooldown)
    {
      assert ops[..n][..i] == ops[..i];
    }
  }

  lemma RoundsAreProper(ops: seq<Operated>, failover: bool, v4: bool, cooldown: int)
    requires Possible(ops, failover, v4, cooldown)
    ensures Proper(RoundsOf(ops, failover, v4, cooldown))
  {
    hide BestOf, TableAfter, Selects, RunOf;
  }

  lemma {:induction false} ChoiceOfRounds(ops: seq<Operated>, failover: bool, v4: bool, cooldown: int)
    ensures RunOf(ops, failover, v4, cooldown).choice == Failover.After(RoundsOf(ops, failover, v4, cooldown), cooldown)
  {
    if ops != [] {
      hide TableAfter, Selects, Select, RoundsOf;
      var n := |ops| - 1;
      ChoiceOfRounds(ops[..n], failover, v4, cooldown);
      RoundsExtend(ops, n, failover, v4, cooldown);
      LastRound(ops, failover, v4, cooldown);
    }
  }

  lemma LastRound(ops: seq<Operated>, failover: bool, v4: bool, cooldown: int)
    requires ops != []
    ensures RoundsOf(ops, failover, v4, cooldown)[|ops| - 1] == RoundOf(ops, |ops| - 1, failover, v4, cooldown)
  {}

  /** Every run of a sender is a proper sequence of rounds, and the path they choose is the sender's active path. */
  lemma RunIsRounds(ops: seq<Operated>, failover: bool, v4: bool, cooldown: int)
    requires Possible(ops, failover, v4, cooldown)
    ensures Proper(RoundsOf(ops, failover, v4, cooldown))
    ensures RunOf(ops, failover, v4, cooldown).choice == Failover.After(RoundsOf(ops, failover, v4, cooldown), cooldown)
  {
    RoundsAreProper(ops, failover, v4, cooldown);
    ChoiceOfRounds(ops, failover, v4, cooldown);
  }

  /** The active path after the first i operations. */
  function ActiveAfter(ops: seq<Operated>, i: nat, failover: bool, v4: bool, cooldown: int): string
    requires i <= |ops|
  {
    RunOf(ops[..i], failover, v4, cooldown).choice.active
  }

  predicate Switches(ops: seq<Operated>, i: nat, failover: bool, v4: bool, cooldown: int)
    requires i < |ops|
  {
    ActiveAfter(ops, i + 1, failover, v4, cooldown) != ActiveAfter(ops, i, failover, v4, cooldown)
  }

  /** The i-th operation abandons a path that is still there and not down. */
  predicate LeavesWorkingPath(ops: seq<Operated>, i: nat, failover: bool, v4: bool, cooldown: int)
    requires i < |ops|
  {
    && Switches(ops, i, failover, v4, cooldown)
    && Usable(RunOf(ops[..i + 1], failover, v4, cooldown).table, ActiveAfter(ops, i, failover, v4, cooldown))
  }

  lemma ActiveIsChosen(ops: seq<Operated>, i: nat, failover: bool, v4: bool, cooldown: int)
    requires i <= |ops|
    ensures RunOf(ops[..i], failover, v4, cooldown).choice
         == Failover.After(RoundsOf(ops, failover, v4, cooldown)[..i], cooldown)
  {
    hide Failover.After, RunOf, RoundsOf;
    ChoiceOfRounds(ops[..i], failover, v4, cooldown);
    RoundsExtend(ops, i, failover, v4, cooldown);
  }

  lemma SameChanges(ops: seq<Operated>, i: nat, failover: bool, v4: bool, cooldown: int)
    requires i < |ops|
    ensures var rounds := RoundsOf(ops, failover, v4, cooldown);
            && (Switches(ops, i, failover, v4, cooldown) <==> ChangesAt(rounds, i, cooldown))
            && (LeavesWorkingPath(ops, i, failover, v4, cooldown) <==> VoluntaryAt(rounds, i, cooldown))
  {
    hide TableAfter, Selects, Select, Failover.After, RunOf;
    ActiveIsChosen(ops, i, failover, v4, cooldown);
    ActiveIsChosen(ops, i + 1, failover, v4, cooldown);
    RunExtends(ops, i, failover, v4, cooldown);
  }

  /**
   * Whatever operations a sender goes through, mode changes, interface changes and recycling included: a path that
   * still works is abandoned only a full cooldown after the previous switch.
   */
  lemma SenderNeverPingPongs(ops: seq<Operated>, i: nat, j: nat, failover: bool, v4: bool, cooldown: int)
    requires Possible(ops, failover, v4, cooldown) && i < j < |ops|
    requires Switches(ops, i, failover, v4, cooldown) && LeavesWorkingPath(ops, j, failover, v4, cooldown)
    ensures ops[j].now - ops[i].now >= cooldown
  {
    hide Possible, Switches, LeavesWorkingPath, ChangesAt, VoluntaryAt, RoundOf;
    var rounds := RoundsOf(ops, failover, v4, cooldown);
    RunIsRounds(ops, failover, v4, cooldown);
    SameChanges(ops, i, failover, v4, cooldown);
    SameChanges(ops, j, failover, v4, cooldown);
    NoPingPong(rounds, i, j, cooldown);
    RoundTime(ops, i, failover, v4, cooldown);
    RoundTime(ops, j, failover, v4, cooldown);
  }

  lemma RoundTime(ops: seq<Operated>, i: nat, failover: bool, v4: bool, cooldown: int)
    requires i < |ops|
    ensures RoundsOf(ops, failover, v4, cooldown)[i].now == ops[i].now
  {}

  /** The operations among ops[k..n] that abandon a working path. */
  function Abandoned(ops: seq<Operated>, k: nat, n: nat, failover: bool, v4: bool, cooldown: int): nat
    requires k <= n <= |ops|
    decreases n
  {
    if k == n then 0
    else
      Abandoned(ops, k, n - 1, failover, v4, cooldown) +
      (if LeavesWorkingPath(ops, n - 1, failover, v4, cooldown) then 1 else 0)
  }

  lemma {:induction false} SameCount(ops: seq<Operated>, k: nat, n: nat, failover: bool, v4: bool, cooldown: int)
    requires k <= n <= |ops|
    ensures Abandoned(ops, k, n, failover, v4, cooldown)
         == VoluntaryCount(RoundsOf(ops, failover, v4, cooldown), k, n, cooldown)
    decreases n
  {
    hide LeavesWorkingPath, VoluntaryAt, RoundsOf;
    if k < n {
      SameCount(ops, k, n - 1, failover, v4, cooldown);
      SameChanges(ops, n - 1, failover, v4, cooldown);
    }
  }

  /** In any stretch of time T of any run, a sender abandons a working path at most T / cooldown + 1 times. */
  lemma SenderRarelySwitches(ops: seq<Operated>, k: nat, n: nat, failover: bool, v4: bool, cooldown: int)
    requires Possible(ops, failover, v4, cooldown) && k < n <= |ops| && cooldown > 0
    ensures Abandoned(ops, k, n, failover, v4, cooldown) <= (ops[n - 1].now - ops[k].now) / cooldown + 1
  {
    hide Possible, Abandoned, VoluntaryCount, RoundOf;
    RunIsRounds(ops, failover, v4, cooldown);
    SameCount(ops, k, n, failover, v4, cooldown);
    VoluntaryChangesAreRare(RoundsOf(ops, failover, v4, cooldown), k, n, cooldown);
    RoundTime(ops, k, failover, v4, cooldown);
    RoundTime(ops, n - 1, failover, v4, cooldown);
  }

  // ---- Where a run leads ----

  /** The send mode is the one set last. */
  lemma ModeIsLastSet(ops: seq<Operated>, i: nat, failover: bool, v4: bool, cooldown: int)
    requires i < |ops|
    ensures RunOf(ops[..i + 1], failover, v4, cooldown).failover ==
            if ops[i].op.ModeSet? then ops[i].op.failover else RunOf(ops[..i], failover, v4, cooldown).failover
  {
    hide RunOf, TableAfter, Selects, Select;
    RunExtends(ops, i, failover, v4, cooldown);
  }

  /** In failover mode: an RTT update or a miss of a present path, a change of interfaces, or the mode being set. */
  predicate MustSelect(ops: seq<Operated>, i: nat, failover: bool, v4: bool, cooldown: int)
    requires i < |ops|
  {
    && RunOf(ops[..i + 1], failover, v4, cooldown).failover
    && match ops[i].op
       case RttUpdate(name, _) => name in RunOf(ops[..i], failover, v4, cooldown).table
       case MissCounted(name) => name in RunOf(ops[..i], failover, v4, cooldown).table
       case ModeSet(_) => true
       case InterfacesChanged(_, _) => true
       case _ => false
  }

  lemma MustSelectSelects(ops: seq<Operated>, i: nat, failover: bool, v4: bool, cooldown: int)
    requires i < |ops|
    ensures MustSelect(ops, i, failover, v4, cooldown) <==>
            Selects(RunOf(ops[..i], failover, v4, cooldown), ops[i].op)
  {
    hide RunOf, TableAfter, Select;
    RunExtends(ops, i, failover, v4, cooldown);
  }

  /** No other operation touches the active path: no send, no recycling of sockets, nothing in redundant mode. */
  lemma OthersKeepActive(ops: seq<Operated>, i: nat, failover: bool, v4: bool, cooldown: int)
    requires i < |ops| && !MustSelect(ops, i, failover, v4, cooldown)
    ensures RunOf(ops[..i + 1], failover, v4, cooldown).choice == RunOf(ops[..i], failover, v4, cooldown).choice
  {
    hide RunOf, TableAfter, Selects, Select, MustSelect;
    MustSelectSelects(ops, i, failover, v4, cooldown);
    RunExtends(ops, i, failover, v4, cooldown);
  }

  /** After each of these there is no active path exactly when all are down, else a usable one. */
  lemma SelectionsAreUsable(ops: seq<Operated>, i: nat, failover: bool, v4: bool, cooldown: int)
    requires Possible(ops, failover, v4, cooldown) && i < |ops| && MustSelect(ops, i, failover, v4, cooldown)
    ensures var s := RunOf(ops[..i + 1], failover, v4, cooldown);
            && (s.choice.active == "" <==> forall n :: n in s.table ==> s.table[n].status == Down)
            && (s.choice.active != "" ==> Usable(s.table, s.choice.active))
  {
    hide TableAfter, RunOf, BestOf, Select, MustSelect;
    MustSelectSelects(ops, i, failover, v4, cooldown);
    var s := RunOf(ops[..i], failover, v4, cooldown);
    RunExtends(ops, i, failover, v4, cooldown);
    var t := TableAfter(s.table, ops[i].op, v4, ops[i].now);
    SelectionCorrect(s.choice, t, ops[i].best, cooldown, ops[i].now);
  }

  /** ... and the path is one of minimal RTT unless there was a switch within the cooldown before. */
  lemma SenderFollowsBest(ops: seq<Operated>, i: nat, failover: bool, v4: bool, cooldown: int)
    requires Possible(ops, failover, v4, cooldown) && i < |ops| && MustSelect(ops, i, failover, v4, cooldown)
    requires forall k :: 0 <= k < i && Switches(ops, k, failover, v4, cooldown) ==> ops[i].now - ops[k].now >= cooldown
    ensures var s := RunOf(ops[..i + 1], failover, v4, cooldown); IsFastest(s.table, s.choice.active)
  {
    hide Possible, RunOf, TableAfter, Selects, Select, Switches, ChangesAt, VoluntaryAt, LeavesWorkingPath, MustSelect,
         Failover.After, BestOf, IsFastest;
    var rounds := RoundsOf(ops, failover, v4, cooldown);
    RunIsRounds(ops, failover, v4, cooldown);
    MustSelectSelects(ops, i, failover, v4, cooldown);
    forall k | 0 <= k < i && ChangesAt(rounds, k, cooldown) ensures rounds[i].now - rounds[k].now >= cooldown {
      SameChanges(ops, k, failover, v4, cooldown);
    }
    CooldownEnds(rounds, i, cooldown);
    ActiveIsChosen(ops, i + 1, failover, v4, cooldown);
    RunExtends(ops, i, failover, v4, cooldown);
  }
}
