/** internal/transport/iface.go and the path table it feeds: an incremental diff that must agree with a rebuild. */
module Interfaces {
  import opened Basics
  import opened PathModel
  import opened Failover

  /** One usable interface: its IPv4 and IPv6 addresses. */
  datatype Info = Info(name: string, addrs: seq<IP>, addrs6: seq<IP>)

  /** The result of a scan: interfaces by name. */
  type Scan = m: map<string, Info> | "" !in m && forall n :: n in m ==> m[n].name == n

  predicate NoDuplicates(a: seq<IP>) { forall i, j :: 0 <= i < j < |a| ==> a[i] != a[j] }

  function AddrSet(a: seq<IP>): set<IP> { set x | x in a }

  /** What sameAddrs computes. */
  predicate SameAddrs(a: seq<IP>, b: seq<IP>) { |a| == |b| && AddrSet(b) <= AddrSet(a) }

  method CompareAddrs(a: seq<IP>, b: seq<IP>) returns (same: bool)
    ensures same == SameAddrs(a, b)
  {
    if |a| != |b| {
      return false;
    }
    var seen: set<IP> := {};
    for i := 0 to |a|
      invariant seen == AddrSet(a[..i])
    {
      seen := seen + {a[i]};
    }
    assert a[..|a|] == a;
    for i := 0 to |b|
      invariant forall k :: 0 <= k < i ==> b[k] in seen
    {
      if b[i] !in seen {
        assert b[i] in AddrSet(b);
        return false;
      }
    }
    return true;
  }

  lemma {:induction false} SizeWithoutDuplicates(a: seq<IP>)
    ensures |AddrSet(a)| <= |a|
    ensures |AddrSet(a)| == |a| <==> NoDuplicates(a)
  {
    if a == [] {
      assert AddrSet(a) == {};
    } else {
      var n := |a| - 1;
      hide AddrSet, NoDuplicates;
      SizeWithoutDuplicates(a[..n]);
      assert a[..n] + [a[n]] == a;
      OneMoreAddr(a[..n], a[n]);
    }
  }

  lemma OneMoreAddr(a: seq<IP>, x: IP)
    ensures AddrSet(a + [x]) == AddrSet(a) + {x}
    ensures NoDuplicates(a + [x]) <==> NoDuplicates(a) && x !in AddrSet(a)
  {
    var more := a + [x];
    assert more[|a|] == x && forall i :: 0 <= i < |a| ==> more[i] == a[i];
    if NoDuplicates(more) {
      forall i, j | 0 <= i < j < |a| ensures a[i] != a[j] { assert more[i] != more[j]; }
      forall i | 0 <= i < |a| ensures a[i] != x { assert more[i] != more[|a|]; }
    }
  }

  lemma SubsetOfSameSize(a: set<IP>, b: set<IP>)
    requires b <= a && |b| >= |a|
    ensures a == b
  {
    assert a == b + (a - b);
  }

  /** By pigeonhole, for lists without duplicates the test is equality of the address sets. */
  lemma SameAddrsIsSetEquality(a: seq<IP>, b: seq<IP>)
    requires NoDuplicates(a) && NoDuplicates(b)
    ensures SameAddrs(a, b) <==> AddrSet(a) == AddrSet(b)
  {
    SizeWithoutDuplicates(a);
    SizeWithoutDuplicates(b);
    if SameAddrs(a, b) { SubsetOfSameSize(AddrSet(a), AddrSet(b)); }
  }

  lemma {:induction false} FreshAddr(a: seq<IP>) returns (x: IP)
    ensures forall i :: 0 <= i < |a| ==> a[i] < x
  {
    if a == [] {
      x := 0;
    } else {
      x := FreshAddr(a[..|a| - 1]);
      x := Max(x, a[|a| - 1] + 1);
    }
  }

  /** An old list that a new list with a duplicate is taken for, although it held an address that is gone. */
  lemma MistakenFor(b: seq<IP>) returns (a: seq<IP>, x: IP)
    requires !NoDuplicates(b)
    ensures SameAddrs(a, b) && x in a && x !in b
  {
    var i, j :| 0 <= i < j < |b| && b[i] == b[j];
    x := FreshAddr(b);
    a := b[j := x];
    forall y | y in b ensures y in a {
      var k :| 0 <= k < |b| && b[k] == y;
      assert a[if k == j then i else k] == y;
    }
    assert a[j] == x;
  }

  /** The new list, whatever was there before, never hides a change: exactly if it lists no address twice. */
  lemma NoHiddenChangeIff(b: seq<IP>)
    ensures (forall a :: SameAddrs(a, b) ==> AddrSet(a) == AddrSet(b)) <==> NoDuplicates(b)
  {
    if NoDuplicates(b) {
      forall a | SameAddrs(a, b) ensures AddrSet(a) == AddrSet(b) {
        SizeWithoutDuplicates(a);
        SizeWithoutDuplicates(b);
        SubsetOfSameSize(AddrSet(a), AddrSet(b));
      }
    } else {
      var a, x := MistakenFor(b);
      assert x in AddrSet(a) && x !in AddrSet(b);
    }
  }

  lemma {:induction false} Distinct(a: seq<IP>) returns (b: seq<IP>)
    ensures NoDuplicates(b) && AddrSet(b) == AddrSet(a)
  {
    if a == [] {
      b := [];
    } else {
      var n := |a| - 1;
      b := Distinct(a[..n]);
      assert AddrSet(a) == AddrSet(a[..n]) + {a[n]};
      if a[n] !in AddrSet(b) {
        assert AddrSet(b + [a[n]]) == AddrSet(b) + {a[n]};
        b := b + [a[n]];
      }
    }
  }

  /** The old list never raises a false alarm at a clean new one: exactly if it listed no address twice. */
  lemma NoFalseAlarmIff(a: seq<IP>)
    ensures (forall b :: NoDuplicates(b) && AddrSet(a) == AddrSet(b) ==> SameAddrs(a, b)) <==> NoDuplicates(a)
  {
    SizeWithoutDuplicates(a);
    forall b | NoDuplicates(b) && AddrSet(a) == AddrSet(b) ensures SameAddrs(a, b) <==> NoDuplicates(a) {
      SizeWithoutDuplicates(b);
    }
    var b := Distinct(a);
  }

  // ---- The diff ----

  /** detectChanges' test. */
  predicate Changed(a: Info, b: Info) { !SameAddrs(a.addrs, b.addrs) || !SameAddrs(a.addrs6, b.addrs6) }

  /** The addresses themselves are the same, in both families. */
  predicate SameSets(a: Info, b: Info) {
    AddrSet(a.addrs) == AddrSet(b.addrs) && AddrSet(a.addrs6) == AddrSet(b.addrs6)
  }

  /** No address is listed twice, in either family. */
  predicate Clean(a: Info) { NoDuplicates(a.addrs) && NoDuplicates(a.addrs6) }

  predicate SameLengths(a: Info, b: Info) { |a.addrs| == |b.addrs| && |a.addrs6| == |b.addrs6| }

  /** An interface whose addresses did not change passes the test exactly if neither list became longer or shorter. */
  lemma UnchangedIffSameLengths(a: Info, b: Info)
    requires SameSets(a, b)
    ensures !Changed(a, b) <==> SameLengths(a, b)
    ensures Clean(a) && Clean(b) ==> !Changed(a, b)
  {
    if Clean(a) && Clean(b) {
      SameAddrsIsSetEquality(a.addrs, b.addrs);
      SameAddrsIsSetEquality(a.addrs6, b.addrs6);
    }
  }

  /**
   * No clean scan of the same addresses is ever taken for a change if and only if the scan before listed no address
   * twice, in the server's family or in the other.
   */
  lemma NeverDisturbedIff(a: Info)
    ensures (forall b: Info :: Clean(b) && SameSets(a, b) ==> !Changed(a, b)) <==> Clean(a)
  {
    if Clean(a) {
      forall b: Info | Clean(b) && SameSets(a, b) ensures !Changed(a, b) { UnchangedIffSameLengths(a, b); }
    } else {
      var four := Distinct(a.addrs);
      var six := Distinct(a.addrs6);
      var b := Info(a.name, four, six);
      SizeWithoutDuplicates(a.addrs);
      SizeWithoutDuplicates(a.addrs6);
      SizeWithoutDuplicates(b.addrs);
      SizeWithoutDuplicates(b.addrs6);
      assert Clean(b) && SameSets(a, b) && Changed(a, b);
    }
  }

  function AddedNames(current: Scan, latest: Scan): set<string> {
    set n | n in latest && (n in current ==> Changed(current[n], latest[n]))
  }

  function RemovedNames(current: Scan, latest: Scan): set<string> {
    set n | n in current && (n in latest ==> Changed(current[n], latest[n]))
  }

  /** The sequence lists the interfaces of m with the given names, each once. */
  ghost predicate Lists(infos: seq<Info>, names: set<string>, m: Scan) {
    && (forall i :: 0 <= i < |infos| ==> infos[i].name in names && infos[i].name in m && infos[i] == m[infos[i].name])
    && (forall n :: n in names ==> exists i :: 0 <= i < |infos| && infos[i].name == n)
    && forall i, j :: 0 <= i < j < |infos| ==> infos[i].name != infos[j].name
  }

  // ---- Its effect on the path table ----

  /** The addresses of the server's family. */
  function Family(info: Info, v4: bool): seq<IP> { if v4 then info.addrs else info.addrs6 }

  function Removed(t: Table, infos: seq<Info>): Table {
    t - set i | 0 <= i < |infos| :: infos[i].name
  }

  function AddedPath(t: Table, info: Info, v4: bool, now: Time): Table
    requires info.name != ""
  {
    if Family(info, v4) == [] then t else t[info.name := NewPath(Family(info, v4)[0], now)]
  }

  function Added(t: Table, infos: seq<Info>, v4: bool, now: Time): Table
    requires forall i :: 0 <= i < |infos| ==> infos[i].name != ""
  {
    if infos == [] then t
    else AddedPath(Added(t, infos[..|infos| - 1], v4, now), infos[|infos| - 1], v4, now)
  }

  /**
   * The table a rebuild from scratch would have: the interfaces with an address of the family, on one of its
   * addresses.
   */
  ghost predicate Mirrors(t: Table, scan: Scan, v4: bool) {
    && (forall n :: n in t <==> n in scan && Family(scan[n], v4) != [])
    && forall n :: n in t ==> t[n].localAddr in Family(scan[n], v4)
  }

  lemma {:induction false} AddedTable(t: Table, infos: seq<Info>, v4: bool, now: Time)
    requires forall i :: 0 <= i < |infos| ==> infos[i].name != ""
    requires forall i, j :: 0 <= i < j < |infos| ==> infos[i].name != infos[j].name
    ensures forall i :: 0 <= i < |infos| && Family(infos[i], v4) != [] ==>
      && infos[i].name in Added(t, infos, v4, now)
      && Added(t, infos, v4, now)[infos[i].name] == NewPath(Family(infos[i], v4)[0], now)
    ensures forall n :: n in Added(t, infos, v4, now) ==>
      n in t || exists i :: 0 <= i < |infos| && infos[i].name == n && Family(infos[i], v4) != []
    ensures forall n :: n in t && (forall i :: 0 <= i < |infos| ==> infos[i].name != n) ==>
      n in Added(t, infos, v4, now) && Added(t, infos, v4, now)[n] == t[n]
  {
    if infos != [] {
      var k := |infos| - 1;
      AddedTable(t, infos[..k], v4, now);
      assert forall i :: 0 <= i < k ==> infos[..k][i] == infos[i];
    }
  }

  /** Interfaces whose addresses pass for unchanged. */
  predicate Untouched(current: Scan, latest: Scan, n: string) {
    n in current && n in latest && !Changed(current[n], latest[n])
  }

  /** The interface has the same addresses as before, listed as often, as it has if no address is listed twice. */
  predicate SameAddresses(current: Scan, latest: Scan, n: string) {
    n in current && n in latest && SameSets(current[n], latest[n]) && SameLengths(current[n], latest[n])
  }

  lemma SameAddrsKeepsFamily(a: Info, b: Info, v4: bool)
    requires !Changed(a, b) && NoDuplicates(Family(b, v4))
    ensures AddrSet(Family(a, v4)) == AddrSet(Family(b, v4)) && |Family(a, v4)| == |Family(b, v4)|
  {
    NoHiddenChangeIff(Family(b, v4));
  }

  /** No address of the server's family is listed twice. */
  ghost predicate CleanScan(scan: Scan, v4: bool) {
    forall n :: n in scan ==> NoDuplicates(Family(scan[n], v4))
  }

  /**
   * The incremental update leaves a table that mirrors the new scan, as a rebuild would. Of the interfaces whose
   * addresses did not change, it keeps the path and its RTT history exactly if neither list changed its length, and
   * so in particular if no address is listed twice; otherwise it starts a new path.
   */
  lemma DiffAgreesWithRebuild(t: Table, current: Scan, latest: Scan, added: seq<Info>, removed: seq<Info>, v4: bool,
        now: Time)
    requires Mirrors(t, current, v4) && CleanScan(latest, v4)
    requires Lists(added, AddedNames(current, latest), latest) && Lists(removed, RemovedNames(current, latest), current)
    ensures Mirrors(Added(Removed(t, removed), added, v4, now), latest, v4)
    ensures KeepsPaths(t, current, latest, Added(Removed(t, removed), added, v4, now), v4, now)
  {
    hide Changed, NewPath, Added, Mirrors, CleanScan, NoDuplicates, Family, KeepsPaths;
    PathsKept(t, current, latest, added, removed, v4, now);
    var kept := Removed(t, removed);
    var result := Added(kept, added, v4, now);
    AddedTable(kept, added, v4, now);
    RemovedTable(t, removed, RemovedNames(current, latest), current);
    forall n | n in latest
      ensures n in result <==> Family(latest[n], v4) != []
      ensures n in result ==> result[n].localAddr in Family(latest[n], v4)
    {
      if Untouched(current, latest, n) {
        UntouchedKept(t, current, latest, added, kept, result, n, v4);
      } else {
        MirrorsOnlyScanned(t, current, n, v4);
        assert n in current ==> n in RemovedNames(current, latest);
        assert n in AddedNames(current, latest);
        TouchedRenewed(kept, latest, added, AddedNames(current, latest), n, v4, now);
      }
    }
    forall n | n in result ensures n in latest {
      MirrorsOnlyScanned(t, current, n, v4);
    }
    MirrorsFrom(result, latest, v4);
  }

  /**
   * What happens to the path of an interface whose addresses did not change: the lengths of its lists decide whether
   * it is kept, or replaced by a new one.
   */
  ghost predicate KeepsPaths(t: Table, current: Scan, latest: Scan, result: Table, v4: bool, now: Time) {
    forall n :: n in t && n in current && n in latest && SameSets(current[n], latest[n]) ==>
      && n in result && Family(latest[n], v4) != []
      && result[n] == (if SameLengths(current[n], latest[n]) then t[n] else NewPath(Family(latest[n], v4)[0], now))
      && (Clean(current[n]) && Clean(latest[n]) ==> SameLengths(current[n], latest[n]))
  }

  lemma PathsKept(t: Table, current: Scan, latest: Scan, added: seq<Info>, removed: seq<Info>, v4: bool, now: Time)
    requires Mirrors(t, current, v4)
    requires Lists(added, AddedNames(current, latest), latest) && Lists(removed, RemovedNames(current, latest), current)
    ensures KeepsPaths(t, current, latest, Added(Removed(t, removed), added, v4, now), v4, now)
  {
    hide NewPath, Added, NoDuplicates, SameSets, SameLengths, Clean, Changed, Removed;
    RemovedTable(t, removed, RemovedNames(current, latest), current);
    forall n | n in t && n in current && n in latest && SameSets(current[n], latest[n])
      ensures var result := Added(Removed(t, removed), added, v4, now);
              && n in result && Family(latest[n], v4) != []
              && result[n] ==
                   (if SameLengths(current[n], latest[n]) then t[n] else NewPath(Family(latest[n], v4)[0], now))
              && (Clean(current[n]) && Clean(latest[n]) ==> SameLengths(current[n], latest[n]))
    {
      UnchangedIffSameLengths(current[n], latest[n]);
      SameSetsSameFamily(current[n], latest[n], v4);
      ListedOrKept(Removed(t, removed), latest, added, AddedNames(current, latest), n, v4, now);
    }
  }

  lemma SameSetsSameFamily(a: Info, b: Info, v4: bool)
    requires SameSets(a, b)
    ensures Family(a, v4) == [] <==> Family(b, v4) == []
  {
    forall x: seq<IP> ensures x == [] <==> AddrSet(x) == {} {
      if x != [] { assert x[0] in AddrSet(x); }
    }
  }

  /** An interface that is listed gets a new path, any other keeps what it has. */
  lemma ListedOrKept(kept: Table, latest: Scan, added: seq<Info>, names: set<string>, n: string, v4: bool, now: Time)
    requires Lists(added, names, latest) && n in latest
    ensures var result := Added(kept, added, v4, now);
            && (n in names && Family(latest[n], v4) != [] ==>
                  n in result && result[n] == NewPath(Family(latest[n], v4)[0], now))
            && (n !in names && n in kept ==> n in result && result[n] == kept[n])
  {
    hide Added, NewPath, Family;
    AddedTable(kept, added, v4, now);
    if n in names {
      var i :| 0 <= i < |added| && added[i].name == n;
    }
  }

  const TWICE := Info("eth0", [1], [7, 7])
  const ONCE := Info("eth0", [1], [7])
  const SCAN_TWICE: Scan := map["eth0" := TWICE]
  const SCAN_ONCE: Scan := map["eth0" := ONCE]

  /**
   * An IPv4 path is replaced, and its RTT history lost, because an IPv6 address was listed twice before: the addresses
   * of the interface are the same, and the IPv4 lists are clean.
   */
  lemma OtherFamilyCostsHistory(t: Table, now: Time)
    requires t.Keys == {"eth0"} && t["eth0"].localAddr == 1
    ensures SameSets(TWICE, ONCE) && CleanScan(SCAN_TWICE, true) && CleanScan(SCAN_ONCE, true)
    ensures Mirrors(t, SCAN_TWICE, true)
    ensures Lists([ONCE], AddedNames(SCAN_TWICE, SCAN_ONCE), SCAN_ONCE)
    ensures Lists([TWICE], RemovedNames(SCAN_TWICE, SCAN_ONCE), SCAN_TWICE)
    ensures Added(Removed(t, [TWICE]), [ONCE], true, now) == map["eth0" := NewPath(1, now)]
  {
    assert 1 in TWICE.addrs && AddrSet([7, 7]) == {7} == AddrSet([7]);
    assert Changed(TWICE, ONCE);
    assert [ONCE][0].name == "eth0" && [TWICE][0].name == "eth0";
    assert AddedNames(SCAN_TWICE, SCAN_ONCE) == {"eth0"};
    assert RemovedNames(SCAN_TWICE, SCAN_ONCE) == {"eth0"};
    RenewedOnly(t, now);
  }

  lemma RenewedOnly(t: Table, now: Time)
    requires t.Keys == {"eth0"}
    ensures Added(Removed(t, [TWICE]), [ONCE], true, now) == map["eth0" := NewPath(1, now)]
  {
    assert [TWICE][0].name == "eth0";
    assert Removed(t, [TWICE]) == map[];
    assert [ONCE][..0] == [];
    assert Added(map[], [], true, now) == map[];
  }

  lemma MirrorsFrom(t: Table, scan: Scan, v4: bool)
    requires forall n :: n in t ==> n in scan
    requires forall n :: n in scan ==> (n in t <==> Family(scan[n], v4) != []) && (n in t ==>
          t[n].localAddr in Family(scan[n], v4))
    ensures Mirrors(t, scan, v4)
  {}

  lemma MirrorsOnlyScanned(t: Table, scan: Scan, n: string, v4: bool)
    requires Mirrors(t, scan, v4)
    ensures n in t ==> n in scan
  {}

  lemma RemovedTable(t: Table, removed: seq<Info>, names: set<string>, scan: Scan)
    requires Lists(removed, names, scan)
    ensures forall n :: n in Removed(t, removed) <==> n in t && n !in names
    ensures forall n :: n in Removed(t, removed) ==> Removed(t, removed)[n] == t[n]
  {}

  /** An interface that is added gets a new path exactly if it has an address of the family. */
  lemma TouchedRenewed(kept: Table, latest: Scan, added: seq<Info>, names: set<string>, n: string, v4: bool, now: Time)
    requires Lists(added, names, latest) && n in names && n in latest && n !in kept
    ensures var result := Added(kept, added, v4, now);
            && (n in result <==> Family(latest[n], v4) != [])
            && (n in result ==> result[n].localAddr in Family(latest[n], v4))
  {
    hide Added, NewPath, Family;
    var i :| 0 <= i < |added| && added[i].name == n;
    AddedTable(kept, added, v4, now);
    NewPathAddr(Family(latest[n], v4), now);
  }

  lemma NewPathAddr(family: seq<IP>, now: Time)
    ensures family != [] ==> NewPath(family[0], now).localAddr in family
  {}

  lemma UntouchedKept(t: Table, current: Scan, latest: Scan, added: seq<Info>, kept: Table, result: Table, n: string,
        v4: bool)
    requires Mirrors(t, current, v4) && CleanScan(latest, v4) && Untouched(current, latest, n)
    requires Lists(added, AddedNames(current, latest), latest)
    requires n in kept <==> n in t
    requires n in kept ==> kept[n] == t[n]
    requires n in kept && (forall i :: 0 <= i < |added| ==> added[i].name != n) ==> n in result && result[n] == kept[n]
    requires n in result ==> n in kept || exists i :: 0 <= i < |added| && added[i].name == n
    ensures n in result <==> Family(latest[n], v4) != []
    ensures n in result ==> result[n].localAddr in Family(latest[n], v4)
    ensures n in t ==> n in result && result[n] == t[n]
  {
    SameAddrsKeepsFamily(current[n], latest[n], v4);
    assert n !in AddedNames(current, latest);
    assert forall i :: 0 <= i < |added| ==> added[i].name != n;
    if n in t {
      assert t[n].localAddr in AddrSet(Family(current[n], v4));
    }
  }

  /** Whatever came before, the incremental update to this scan gives the table of a rebuild. */
  ghost predicate AlwaysAgrees(latest: Scan, v4: bool) {
    forall t: Table, current: Scan, added: seq<Info>, removed: seq<Info>, now: Time ::
      && Mirrors(t, current, v4)
      && Lists(added, AddedNames(current, latest), latest) && Lists(removed, RemovedNames(current, latest), current) ==>
      Mirrors(Added(Removed(t, removed), added, v4, now), latest, v4)
  }

  /** The scan with other addresses of the family for one interface. */
  function Replaced(scan: Scan, name: string, family: seq<IP>, v4: bool): Scan
    requires name in scan
  {
    scan[name := if v4 then scan[name].(addrs := family) else scan[name].(addrs6 := family)]
  }

  /** Nothing is reported when the lists of one interface are mistaken for each other. */
  lemma MistakeUnreported(latest: Scan, name: string, family: seq<IP>, v4: bool)
    requires name in latest && SameAddrs(family, Family(latest[name], v4))
    ensures var current := Replaced(latest, name, family, v4);
            AddedNames(current, latest) == {} && RemovedNames(current, latest) == {}
  {}

  /** A table that mirrors a scan, on the given address for one interface. */
  function TableOn(scan: Scan, name: string, x: IP, v4: bool): Table {
    map n | n in scan && Family(scan[n], v4) != [] :: NewPath(if n == name then x else Family(scan[n], v4)[0], 0)
  }

  lemma TableOnMirrors(scan: Scan, name: string, x: IP, v4: bool)
    requires name in scan && x in Family(scan[name], v4)
    ensures Mirrors(TableOn(scan, name, x, v4), scan, v4)
  {}

  lemma DuplicateMisleads(latest: Scan, name: string, v4: bool)
    requires name in latest && !NoDuplicates(Family(latest[name], v4))
    ensures !AlwaysAgrees(latest, v4)
  {
    var family, x := MistakenFor(Family(latest[name], v4));
    var current := Replaced(latest, name, family, v4);
    var t := TableOn(current, name, x, v4);
    TableOnMirrors(current, name, x, v4);
    MistakeUnreported(latest, name, family, v4);
    assert Removed(t, []) == t;
    assert Added(t, [], v4, 0) == t;
    assert t[name].localAddr == x;
    assert !Mirrors(Added(Removed(t, []), [], v4, 0), latest, v4);
    assert Lists([], AddedNames(current, latest), latest) && Lists([], RemovedNames(current, latest), current);
  }

  /** The incremental update to a scan always agrees with a rebuild if and only if the scan lists no address twice. */
  lemma AgreesIffClean(latest: Scan, v4: bool)
    ensures AlwaysAgrees(latest, v4) <==> CleanScan(latest, v4)
  {
    if CleanScan(latest, v4) {
      forall t: Table, current: Scan, added: seq<Info>, removed: seq<Info>, now: Time |
          && Mirrors(t, current, v4)
          && Lists(added, AddedNames(current, latest), latest) && Lists(removed, RemovedNames(current, latest), current)
        ensures Mirrors(Added(Removed(t, removed), added, v4, now), latest, v4)
      {
        DiffAgreesWithRebuild(t, current, latest, added, removed, v4, now);
      }
    } else {
      var name :| name in latest && !NoDuplicates(Family(latest[name], v4));
      DuplicateMisleads(latest, name, v4);
    }
  }

  // ---- Whole runs ----

  /** A scan that was taken and reported, or anything that happens to one path in between. */
  datatype Happening =
    | Scanned(latest: Scan, added: seq<Info>, removed: seq<Info>, now: Time)
    | OnPath(name: string, event: Timed)

  datatype Watched = Watched(table: Table, current: Scan)

  function Happen(s: Watched, h: Happening, v4: bool): Watched {
    match h
    case Scanned(latest, added, removed, now) =>
      if exists i :: 0 <= i < |added| && added[i].name == "" then s
      else Watched(Added(Removed(s.table, removed), added, v4, now), latest)
    case OnPath(name, event) =>
      if name in s.table then s.(table := s.table[name := Step(s.table[name], event)]) else s
  }

  /** Scans list no address twice, and what is reported is the difference to the scan before. */
  ghost predicate Reported(s: Watched, h: Happening, v4: bool) {
    h.Scanned? ==>
      && CleanScan(h.latest, v4)
      && Lists(h.added, AddedNames(s.current, h.latest), h.latest)
      && Lists(h.removed, RemovedNames(s.current, h.latest), s.current)
  }

  function AfterAll(s: Watched, hs: seq<Happening>, v4: bool): Watched {
    if hs == [] then s else Happen(AfterAll(s, hs[..|hs| - 1], v4), hs[|hs| - 1], v4)
  }

  lemma HappenKeepsMirrors(s: Watched, h: Happening, v4: bool)
    requires Mirrors(s.table, s.current, v4) && Reported(s, h, v4)
    ensures Mirrors(Happen(s, h, v4).table, Happen(s, h, v4).current, v4)
  {
    hide CleanScan, Added, Removed, AddedNames, RemovedNames;
    if h.Scanned? {
      hide Mirrors;
      assert forall i :: 0 <= i < |h.added| ==> h.added[i].name in h.latest;
      DiffAgreesWithRebuild(s.table, s.current, h.latest, h.added, h.removed, v4, h.now);
    } else if h.name in s.table {
      StepKeepsAddress(s.table[h.name], h.event);
    }
  }

  lemma StepKeepsAddress(p: PathState, e: Timed)
    ensures Step(p, e).localAddr == p.localAddr
  {}

  /** Through any sequence of scans and path events, the incremental table is the one a rebuild would give. */
  lemma {:induction false} TableAlwaysMirrors(hs: seq<Happening>, v4: bool)
    requires forall i :: 0 <= i < |hs| ==> Reported(AfterAll(Watched(map[], map[]), hs[..i], v4), hs[i], v4)
    ensures var s := AfterAll(Watched(map[], map[]), hs, v4); Mirrors(s.table, s.current, v4)
  {
    hide Reported, Happen;
    if hs == [] {
      EmptyMirrors(v4);
    } else {
      var n := |hs| - 1;
      assert forall i :: 0 <= i < n ==> hs[..n][..i] == hs[..i];
      TableAlwaysMirrors(hs[..n], v4);
      HappenKeepsMirrors(AfterAll(Watched(map[], map[]), hs[..n], v4), hs[n], v4);
    }
  }

  lemma EmptyMirrors(v4: bool)
    ensures Mirrors(map[], map[], v4)
  {}
}
