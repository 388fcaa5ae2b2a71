/** internal/transport/multipath.go and iface.go: the sender and the watcher, updating their paths in place. */
module Multipath {
  import opened Basics
  import opened PathModel
  import opened Failover
  import opened Interfaces
  import opened SenderRuns

  class Path {
    const ifaceName: string
    const localAddr: IP
    var rtt: int
    var samples: seq<int>
    var lastRecv: Time
    var status: Status
    var missCount: nat
    var txBytes: nat
    var lastRecycled: Option<Time>
    var recycleCount: nat

    ghost function View(): PathState
      reads this
    {
      PathState(localAddr, rtt, samples, lastRecv, status, missCount, txBytes, lastRecycled, recycleCount)
    }

    constructor (name: string, addr: IP, now: Time)
      ensures ifaceName == name && View() == NewPath(addr, now)
    {
      ifaceName, localAddr := name, addr;
      rtt, samples, lastRecv, status, missCount, txBytes := 0, [], now, Active, 0, 0;
      lastRecycled, recycleCount := None, 0;
    }

    /** UpdateRTT's change to the path. */
    method Measure(sample: int, now: Time)
      modifies this
      ensures View() == Measured(old(View()), sample, now)
    {
      samples := samples + [sample];
      if |samples| > RTT_SAMPLES {
        samples := samples[|samples| - RTT_SAMPLES..];
      }
      rtt := AverageDuration(samples);
      lastRecv, missCount, recycleCount, status := now, 0, 0, Active;
    }

    method CountMiss()
      modifies this
      ensures View() == Missed(old(View()))
    {
      missCount := missCount + 1;
      if missCount >= MISS_THRESHOLD {
        status := Down;
      }
    }

    method Write(n: nat, ok: bool)
      modifies this
      ensures View() == Wrote(old(View()), ok, n)
    {
      if ok {
        txBytes := txBytes + n;
      } else {
        status := Suspect;
      }
    }

    /** The first loop of CheckAndRecycleStalePaths for one path: gives up on it, or reports it as stale. */
    method Inspect(now: Time) returns (stale: bool)
      modifies this
      ensures stale <==> Judge(old(View()), now) == Recycle
      ensures View() == if stale then old(View()) else Checked(old(View()), now)
    {
      if status == Down {
        return recycleCount >= RECYCLE_ATTEMPTS && Elapsed(lastRecycled, now, RECYCLE_BACKOFF);
      }
      if now - lastRecv <= STALE_TIMEOUT {
        return false;
      }
      if recycleCount >= RECYCLE_ATTEMPTS {
        status := Down;
        return false;
      }
      if lastRecycled.Some? && now - lastRecycled.value <= RECYCLE_INTERVAL {
        return false;
      }
      return true;
    }

    /** recyclePath, when the new socket can be created. */
    method RecycleSocket(now: Time)
      modifies this
      ensures View() == Recycled(old(View()), now)
    {
      status := Active;
      lastRecycled := Some(now);
      recycleCount := recycleCount + 1;
    }
  }

  class MultiPathSender {
    const serverIsV4: bool
    const switchCooldown: int
    var paths: map<string, Path>
    var failover: bool
    var activePath: string
    var lastSwitch: Option<Time>
    /** The states of the paths, by interface name. */
    ghost var table: Table

    ghost predicate Valid()
      reads this, paths.Values
    {
      paths.Keys == table.Keys && forall n :: n in paths ==> paths[n].ifaceName == n && paths[n].View() == table[n]
    }

    ghost function Chosen(): Choice
      reads this
    {
      Choice(activePath, lastSwitch)
    }

    /** The sender as the runs of SenderRuns see it. */
    ghost function View(): Sender
      reads this
    {
      Sender(table, Chosen(), failover)
    }

    /** One step of such a run. */
    ghost function Stepped(s: Sender, op: Operation, best: string, now: Time): Sender {
      Operate(s, op, best, serverIsV4, switchCooldown, now)
    }

    constructor (serverIsV4: bool, failover: bool)
      ensures Valid() && paths == map[] && this.serverIsV4 == serverIsV4 && this.failover == failover
      ensures View() == Sender(map[], Choice("", None), failover) && switchCooldown == SWITCH_COOLDOWN
    {
      this.serverIsV4, this.failover := serverIsV4, failover;
      switchCooldown := SWITCH_COOLDOWN;
      paths, table := map[], map[];
      activePath, lastSwitch := "", None;
    }

    /** The scan of selectBestPathLocked, in whatever order Go's map iteration takes. */
    method BestPath() returns (best: string)
      requires Valid()
      ensures BestOf(table, best)
    {
      best := "";
      var bestRTT := 0;
      var todo := paths.Keys;
      while todo != {}
        invariant todo <= paths.Keys
        invariant best != "" ==> best !in todo && Usable(table, best) && table[best].rtt == bestRTT
        invariant forall n :: Usable(table, n) && n !in todo ==> best != "" && bestRTT <= table[n].rtt
      {
        var n :| n in todo;
        todo := todo - {n};
        var p := paths[n];
        assert p.View() == table[n];
        if p.status != Down && (best == "" || p.rtt < bestRTT) {
          best, bestRTT := n, p.rtt;
        }
      }
    }

    /** selectBestPathLocked and the assignment of its result to activePath. */
    method Reselect(now: Time) returns (ghost best: string)
      requires Valid()
      modifies this`activePath, this`lastSwitch
      ensures Valid() && BestOf(table, best)
      ensures Chosen() == Select(old(Chosen()), table, best, switchCooldown, now)
    {
      var name := BestPath();
      best := name;
      if activePath != "" && activePath != name && activePath in paths {
        var p := paths[activePath];
        assert p.View() == table[activePath];
        if p.status != Down && lastSwitch.Some? && now - lastSwitch.value < switchCooldown {
          return;
        }
      }
      if name != activePath {
        lastSwitch := Some(now);
      }
      activePath := name;
    }

    /** The re-evaluation that ends most operations in failover mode. */
    method ReselectIfFailover(now: Time) returns (ghost best: string)
      requires Valid()
      modifies this`activePath, this`lastSwitch
      ensures Valid() && (failover ==> BestOf(table, best))
      ensures Chosen() == if failover then Select(old(Chosen()), table, best, switchCooldown, now) else old(Chosen())
    {
      best := "";
      if failover {
        best := Reselect(now);
      }
    }

    method UpdateRTT(name: string, sample: int, now: Time) returns (ghost best: string)
      requires Valid()
      modifies this, paths.Values
      ensures Valid() && paths == old(paths) && failover == old(failover)
      ensures table == if name in paths then old(table)[name := Measured(old(table)[name], sample, now)] else old(table)
      ensures failover && name in paths ==> BestOf(table, best)
      ensures Chosen() == if failover && name in paths then Select(old(Chosen()), table, best, switchCooldown, now)
                          else old(Chosen())
      ensures View() == Stepped(old(View()), RttUpdate(name, sample), best, now)
    {
      best := "";
      if name !in paths {
        return;
      }
      paths[name].Measure(sample, now);
      table := table[name := Measured(table[name], sample, now)];
      best := ReselectIfFailover(now);
    }

    method IncrementMiss(name: string, now: Time) returns (ghost best: string)
      requires Valid()
      modifies this, paths.Values
      ensures Valid() && paths == old(paths) && failover == old(failover)
      ensures table == if name in paths then old(table)[name := Missed(old(table)[name])] else old(table)
      ensures failover && name in paths ==> BestOf(table, best)
      ensures Chosen() == if failover && name in paths then Select(old(Chosen()), table, best, switchCooldown, now)
                          else old(Chosen())
      ensures View() == Stepped(old(View()), MissCounted(name), best, now)
    {
      best := "";
      if name !in paths {
        return;
      }
      paths[name].CountMiss();
      table := table[name := Missed(table[name])];
      best := ReselectIfFailover(now);
    }

    method SetSendMode(mode: bool, now: Time) returns (ghost best: string)
      requires Valid()
      modifies this
      ensures Valid() && paths == old(paths) && table == old(table) && failover == mode
      ensures failover ==> BestOf(table, best)
      ensures Chosen() == if failover then Select(old(Chosen()), table, best, switchCooldown, now) else old(Chosen())
      ensures View() == Stepped(old(View()), ModeSet(mode), best, now)
    {
      failover := mode;
      best := ReselectIfFailover(now);
    }

    method StatusOf(name: string) returns (s: Status)
      requires Valid() && name in paths
      ensures s == table[name].status
    {
      assert paths[name].View() == table[name];
      s := paths[name].status;
    }

    method WriteTo(name: string, n: nat, ok: bool)
      requires Valid() && name in paths
      modifies this`table, paths.Values
      ensures Valid() && table == old(table)[name := Wrote(old(table)[name], ok, n)]
    {
      paths[name].Write(n, ok);
      table := table[name := Wrote(table[name], ok, n)];
    }

    /** sendRedundantLocked; ok says through which interfaces the write succeeds. */
    method SendRedundant(n: nat, ok: set<string>) returns (sent: bool)
      requires Valid()
      modifies this`table, paths.Values
      ensures Valid()
      ensures table == map name | name in old(table) ::
                if Usable(old(table), name) then Wrote(old(table)[name], name in ok, n) else old(table)[name]
      ensures sent <==> exists name :: Usable(old(table), name) && name in ok
      ensures forall now :: View() == Stepped(old(View()), SentOnAll(n, ok), "", now)
    {
      ghost var was, before := View(), table;
      hide Wrote, WrittenIn, Operate;
      WrittenStart(before, ok, n);
      sent := false;
      var todo := paths.Keys;
      while todo != {}
        invariant todo <= before.Keys && Valid()
        invariant table == WrittenIn(before, before.Keys - todo, ok, n)
        invariant sent <==> exists name :: name in before.Keys - todo && Usable(before, name) && name in ok
      {
        var name :| name in todo;
        WrittenStep(before, before.Keys - todo, name, ok, n);
        assert before.Keys - (todo - {name}) == before.Keys - todo + {name};
        var status := StatusOf(name);
        if status != Down {
          WriteTo(name, n, name in ok);
          sent := sent || name in ok;
        }
        todo := todo - {name};
      }
      assert before.Keys - {} == before.Keys;
      WrittenEnd(before, ok, n);
      forall now ensures Stepped(was, SentOnAll(n, ok), "", now) == was.(table :=
              map name | name in before :: if Usable(before, name) then Wrote(before[name], name in ok, n)
                                           else before[name])
      {
        SentOnAllTable(was, n, ok, serverIsV4, switchCooldown, now);
      }
    }

    /** Any path that is not down. */
    method AnyUsable() returns (via: string)
      requires Valid()
      ensures if via == "" then forall name :: !Usable(table, name) else Usable(table, via)
    {
      via := "";
      var todo := paths.Keys;
      while todo != {} && via == ""
        invariant todo <= paths.Keys
        invariant if via == "" then forall name :: Usable(table, name) ==> name in todo else Usable(table, via)
      {
        var name :| name in todo;
        todo := todo - {name};
        assert paths[name].View() == table[name];
        if paths[name].status != Down {
          via := name;
        }
      }
    }

    /** sendFailoverLocked: through the active path, or any usable one if there is no active path. */
    method SendFailover(n: nat, ok: set<string>) returns (via: string, sent: bool)
      requires Valid()
      modifies this`table, paths.Values
      ensures Valid()
      ensures if activePath in paths then via == activePath
              else if via == "" then forall name :: !Usable(old(table), name)
              else Usable(old(table), via)
      ensures sent <==> via != "" && via in ok
      ensures table == if via == "" then old(table) else old(table)[via := Wrote(old(table)[via], via in ok, n)]
      ensures forall now :: View() == Stepped(old(View()), SentOn(via, n, ok), "", now)
    {
      hide Operate, Wrote;
      ghost var before := View();
      via := activePath;
      if activePath !in paths {
        via := AnyUsable();
      }
      forall now ensures Stepped(before, SentOn(via, n, ok), "", now) == before.(table :=
              if via == "" then before.table else before.table[via := Wrote(before.table[via], via in ok, n)])
      {
        SentOnTable(before, via, n, ok, serverIsV4, switchCooldown, now);
      }
      if via == "" {
        return "", false;
      }
      WriteTo(via, n, via in ok);
      sent := via in ok;
    }

    method InspectPath(name: string, now: Time) returns (stale: bool)
      requires Valid() && name in paths
      modifies this`table, paths.Values
      ensures Valid() && (stale <==> Judge(old(table)[name], now) == Recycle)
      ensures table == if stale then old(table) else old(table)[name := Checked(old(table)[name], now)]
    {
      hide Judge;
      stale := paths[name].Inspect(now);
      if !stale {
        table := table[name := Checked(table[name], now)];
      }
    }

    method RecyclePath(name: string, now: Time)
      requires Valid() && name in paths
      modifies this`table, paths.Values
      ensures Valid() && table == old(table)[name := Recycled(old(table)[name], now)]
    {
      paths[name].RecycleSocket(now);
      table := table[name := Recycled(table[name], now)];
    }

    /** The first loop of CheckAndRecycleStalePaths: gives up on paths, and collects the stale ones. */
    method CollectStale(now: Time) returns (stale: set<string>)
      requires Valid()
      modifies this`table, paths.Values
      ensures Valid() && stale == StaleNames(old(table), now)
      ensures table == CheckedIn(old(table), old(table).Keys - stale, now)
    {
      ghost var before := table;
      hide Judge, Checked, CheckedIn;
      CheckedStart(before, now);
      stale := {};
      var todo := paths.Keys;
      while todo != {}
        invariant todo <= before.Keys && Valid()
        invariant stale == StaleNames(before, now) - todo
        invariant table == CheckedIn(before, before.Keys - todo - stale, now)
      {
        var name :| name in todo;
        CheckedStep(before, before.Keys - todo - stale, name, now);
        var s := InspectPath(name, now);
        if s {
          stale := stale + {name};
          assert before.Keys - (todo - {name}) - stale == before.Keys - todo - (stale - {name});
        } else {
          assert before.Keys - (todo - {name}) - stale == before.Keys - todo - stale + {name};
        }
        todo := todo - {name};
      }
      assert before.Keys - {} == before.Keys;
    }

    /** CheckAndRecycleStalePaths, when sockets can be created. */
    method CheckAndRecycle(now: Time)
      requires Valid()
      modifies this`table, paths.Values
      ensures Valid()
      ensures table == map name | name in old(table) :: Checked(old(table)[name], now)
      ensures View() == Stepped(old(View()), StaleChecked, "", now)
    {
      ghost var was, before := View(), table;
      hide Judge, Checked, CheckedIn, Operate;
      var stale := CollectStale(now);
      while stale != {}
        invariant stale <= StaleNames(before, now) && Valid()
        invariant table == CheckedIn(before, before.Keys - stale, now)
      {
        var name :| name in stale;
        CheckedStep(before, before.Keys - stale, name, now);
        StaleIsRecycled(before, name, now);
        assert before.Keys - (stale - {name}) == before.Keys - stale + {name};
        RecyclePath(name, now);
        stale := stale - {name};
      }
      assert before.Keys - {} == before.Keys;
      CheckedEnd(before, now);
      StaleCheckedTable(was, serverIsV4, switchCooldown, now);
    }

    method RemovePath(name: string)
      requires Valid()
      modifies this`paths, this`table
      ensures Valid() && table == old(table) - {name} && paths == old(paths) - {name}
    {
      paths := paths - {name};
      table := table - {name};
    }

    /** addPath, when the socket can be created. */
    method AddPath(info: Info, now: Time)
      requires Valid() && info.name != ""
      modifies this`paths, this`table
      ensures Valid() && table == AddedPath(old(table), info, serverIsV4, now)
      ensures forall n :: n in old(paths) && n != info.name ==> n in paths && paths[n] == old(paths)[n]
    {
      var addrs := if serverIsV4 then info.addrs else info.addrs6;
      if |addrs| == 0 {
        return;
      }
      var p := new Path(info.name, addrs[0], now);
      paths := paths[info.name := p];
      table := table[info.name := NewPath(addrs[0], now)];
    }

    /** onInterfaceChange: remove, then add, then select again. */
    method OnInterfaceChange(added: seq<Info>, removed: seq<Info>, now: Time) returns (ghost best: string)
      requires Valid() && forall i :: 0 <= i < |added| ==> added[i].name != ""
      modifies this
      ensures Valid() && failover == old(failover)
      ensures table == Added(Removed(old(table), removed), added, serverIsV4, now)
      ensures forall n :: n in old(paths) && NotListed(added, n) && NotListed(removed, n) ==>
            n in paths && paths[n] == old(paths)[n]
      ensures failover ==> BestOf(table, best)
      ensures Chosen() == if failover then Select(old(Chosen()), table, best, switchCooldown, now) else old(Chosen())
      ensures View() == Stepped(old(View()), InterfacesChanged(added, removed), best, now)
    {
      hide NewPath, BestOf;
      RemoveAll(removed);
      var i := 0;
      while i < |added|
        invariant 0 <= i <= |added| && Valid()
        invariant failover == old(failover) && Chosen() == old(Chosen())
        invariant table == Added(Removed(old(table), removed), added[..i], serverIsV4, now)
        invariant forall n :: n in old(paths) && NotListed(added, n) && NotListed(removed, n) ==>
              n in paths && paths[n] == old(paths)[n]
      {
        assert added[..i + 1][..i] == added[..i];
        AddPath(added[i], now);
        i := i + 1;
      }
      assert added[..i] == added;
      best := ReselectIfFailover(now);
    }

    method RemoveAll(removed: seq<Info>)
      requires Valid()
      modifies this`paths, this`table
      ensures Valid() && table == Removed(old(table), removed)
      ensures forall n :: n in old(paths) && NotListed(removed, n) ==> n in paths && paths[n] == old(paths)[n]
    {
      for i := 0 to |removed|
        invariant Valid()
        invariant table == Removed(old(table), removed[..i])
        invariant forall n :: n in old(paths) && NotListed(removed, n) ==> n in paths && paths[n] == old(paths)[n]
      {
        RemovedOneMore(old(table), removed, i);
        RemovePath(removed[i].name);
      }
      assert removed[..|removed|] == removed;
    }
  }

  /** The table when a redundant send has come past the paths in done. */
  function WrittenIn(t: Table, done: set<string>, ok: set<string>, n: nat): Table {
    map name | name in t :: if name in done && Usable(t, name) then Wrote(t[name], name in ok, n) else t[name]
  }

  lemma WrittenStart(t: Table, ok: set<string>, n: nat)
    ensures WrittenIn(t, t.Keys - t.Keys, ok, n) == t
  {}

  lemma WrittenStep(t: Table, done: set<string>, name: string, ok: set<string>, n: nat)
    requires name in t && name !in done
    ensures var u := WrittenIn(t, done, ok, n);
            && u.Keys == t.Keys && u[name] == t[name]
            && WrittenIn(t, done + {name}, ok, n) ==
                 if Usable(t, name) then u[name := Wrote(t[name], name in ok, n)] else u
  {
    hide Wrote;
  }

  lemma WrittenEnd(t: Table, ok: set<string>, n: nat)
    ensures WrittenIn(t, t.Keys, ok, n) ==
            map name | name in t :: if Usable(t, name) then Wrote(t[name], name in ok, n) else t[name]
  {}

  /** The paths whose sockets are to be recycled. */
  function StaleNames(t: Table, now: Time): set<string> { set n | n in t && Judge(t[n], now) == Recycle }

  /** The table when the check has dealt with the paths in done. */
  function CheckedIn(t: Table, done: set<string>, now: Time): Table {
    map name | name in t :: if name in done then Checked(t[name], now) else t[name]
  }

  lemma CheckedStart(t: Table, now: Time)
    ensures CheckedIn(t, t.Keys - t.Keys - (StaleNames(t, now) - t.Keys), now) == t
    ensures StaleNames(t, now) - t.Keys == {}
  {}

  lemma CheckedStep(t: Table, done: set<string>, name: string, now: Time)
    requires name in t && name !in done
    ensures var u := CheckedIn(t, done, now);
            && u.Keys == t.Keys && u[name] == t[name]
            && CheckedIn(t, done + {name}, now) == u[name := Checked(t[name], now)]
  {
    hide Checked;
  }

  lemma StaleIsRecycled(t: Table, name: string, now: Time)
    requires name in StaleNames(t, now)
    ensures Checked(t[name], now) == Recycled(t[name], now)
  {
    hide Judge;
  }

  lemma CheckedEnd(t: Table, now: Time)
    ensures CheckedIn(t, t.Keys, now) == map name | name in t :: Checked(t[name], now)
  {}

  predicate NotListed(infos: seq<Info>, n: string) { forall i :: 0 <= i < |infos| ==> infos[i].name != n }

  lemma RemovedOneMore(t: Table, removed: seq<Info>, i: nat)
    requires i < |removed|
    ensures Removed(t, removed[..i + 1]) == Removed(t, removed[..i]) - {removed[i].name}
  {
    assert forall k :: 0 <= k < i ==> removed[..i + 1][k] == removed[..i][k];
    assert removed[..i + 1][i] == removed[i];
  }

  /** The watcher, with the sender as its onChange callback. */
  class InterfaceWatcher {
    var current: Scan
    const sender: MultiPathSender

    constructor (sender: MultiPathSender, first: Scan)
      ensures this.sender == sender && current == first
    {
      this.sender, current := sender, first;
    }

    /** The interfaces of m with the given names, in map order. */
    method ListInfos(names: set<string>, m: Scan) returns (infos: seq<Info>)
      requires names <= m.Keys
      ensures Lists(infos, names, m)
    {
      infos := [];
      var todo := names;
      while todo != {}
        invariant todo <= names && Lists(infos, names - todo, m)
      {
        var n :| n in todo;
        ListsOneMore(infos, names - todo, m, n);
        assert names - (todo - {n}) == names - todo + {n};
        infos := infos + [m[n]];
        todo := todo - {n};
      }
      assert names - {} == names;
    }

    method NewOrChanged(latest: Scan) returns (names: set<string>)
      ensures names == AddedNames(current, latest)
    {
      names := {};
      var todo := latest.Keys;
      while todo != {}
        invariant todo <= latest.Keys && names == AddedNames(current, latest) - todo
      {
        var n :| n in todo;
        if n !in current {
          names := names + {n};
        } else {
          var same4 := CompareAddrs(current[n].addrs, latest[n].addrs);
          var same6 := CompareAddrs(current[n].addrs6, latest[n].addrs6);
          if !same4 || !same6 {
            names := names + {n};
          }
        }
        todo := todo - {n};
      }
    }

    method GoneOrChanged(latest: Scan) returns (names: set<string>)
      ensures names == RemovedNames(current, latest)
    {
      names := {};
      var todo := current.Keys;
      while todo != {}
        invariant todo <= current.Keys && names == RemovedNames(current, latest) - todo
      {
        var n :| n in todo;
        if n !in latest {
          names := names + {n};
        } else {
          var same4 := CompareAddrs(current[n].addrs, latest[n].addrs);
          var same6 := CompareAddrs(current[n].addrs6, latest[n].addrs6);
          if !same4 || !same6 {
            names := names + {n};
          }
        }
        todo := todo - {n};
      }
    }

    /** The onChange call, made only if there is something to report. */
    method Report(added: seq<Info>, removed: seq<Info>, now: Time)
      requires sender.Valid() && forall i :: 0 <= i < |added| ==> added[i].name != ""
      modifies sender
      ensures sender.Valid()
      ensures sender.table == Added(Removed(old(sender.table), removed), added, sender.serverIsV4, now)
      ensures forall n :: n in old(sender.paths) && NotListed(added, n) && NotListed(removed, n) ==>
        n in sender.paths && sender.paths[n] == old(sender.paths)[n]
    {
      hide Added, Removed, Select, BestOf;
      if |added| > 0 || |removed| > 0 {
        ghost var best := sender.OnInterfaceChange(added, removed, now);
      } else {
        NothingListed(sender.table, added, removed, sender.serverIsV4, now);
      }
    }

    /** detectChanges on the result of a scan. */
    method DetectChanges(latest: Scan, now: Time)
      requires sender.Valid()
      modifies this, sender
      ensures sender.Valid() && current == latest
      ensures Mirrors(old(sender.table), old(current), sender.serverIsV4) && CleanScan(latest, sender.serverIsV4) ==>
                Mirrors(sender.table, latest, sender.serverIsV4)
      ensures Mirrors(old(sender.table), old(current), sender.serverIsV4) ==>
                KeepsPaths(old(sender.table), old(current), latest, sender.table, sender.serverIsV4, now)
      ensures forall n :: n in old(sender.paths) && SameAddresses(old(current), latest, n) ==>
                n in sender.paths && sender.paths[n] == old(sender.paths)[n]
    {
      hide Mirrors, CleanScan, Changed, NewPath, Added, Removed, KeepsPaths, SameSets, SameLengths;
      var addedNames := NewOrChanged(latest);
      var removedNames := GoneOrChanged(latest);
      var added := ListInfos(addedNames, latest);
      var removed := ListInfos(removedNames, current);
      ghost var t, was := sender.table, current;
      if Mirrors(t, was, sender.serverIsV4) {
        PathsKept(t, was, latest, added, removed, sender.serverIsV4, now);
        if CleanScan(latest, sender.serverIsV4) {
          DiffAgreesWithRebuild(t, was, latest, added, removed, sender.serverIsV4, now);
        }
      }
      current := latest;
      Report(added, removed, now);
      UntouchedNotListed(was, latest, added, removed);
      SameLengthsUntouched(was, latest);
    }
  }

  lemma SameLengthsUntouched(current: Scan, latest: Scan)
    ensures forall n :: SameAddresses(current, latest, n) ==> Untouched(current, latest, n)
  {
    hide Changed;
    forall n | SameAddresses(current, latest, n) ensures Untouched(current, latest, n) {
      UnchangedIffSameLengths(current[n], latest[n]);
    }
  }

  lemma UntouchedNotListed(current: Scan, latest: Scan, added: seq<Info>, removed: seq<Info>)
    requires Lists(added, AddedNames(current, latest), latest) && Lists(removed, RemovedNames(current, latest), current)
    ensures forall n :: Untouched(current, latest, n) ==> NotListed(added, n) && NotListed(removed, n)
  {
    hide Changed;
  }

  lemma ListsOneMore(infos: seq<Info>, names: set<string>, m: Scan, n: string)
    requires Lists(infos, names, m) && n in m && n !in names
    ensures Lists(infos + [m[n]], names + {n}, m)
  {
    var more := infos + [m[n]];
    assert more[|infos|].name == n;
    forall k | k in names ensures exists i :: 0 <= i < |more| && more[i].name == k {
      var i :| 0 <= i < |infos| && infos[i].name == k;
      assert more[i] == infos[i];
    }
  }

  lemma NothingListed(t: Table, added: seq<Info>, removed: seq<Info>, v4: bool, now: Time)
    requires added == [] && removed == []
    ensures Added(Removed(t, removed), added, v4, now) == t
  {}
}
