/** internal/server/server.go: choosing an address from the subnet (the search of allocateIP). */
module Allocation {
  import opened Basics

  function Pow2(n: nat): (p: nat)
    ensures p >= 1
  {
    if n == 0 then 1 else 2 * Pow2(n - 1)
  }

  lemma {:induction false} Pow2Splits(a: nat, b: nat)
    ensures Pow2(a + b) == Pow2(a) * Pow2(b)
  {
    if a > 0 {
      Pow2Splits(a - 1, b);
      assert Pow2(a + b) == 2 * (Pow2(a - 1) * Pow2(b)) == (2 * Pow2(a - 1)) * Pow2(b);
    }
  }

  lemma Pow2Of32()
    ensures Pow2(32) == TWO32
  {
    assert Pow2(8) == 256;
    Pow2Splits(8, 8);
    Pow2Splits(16, 16);
  }

  /** An IPv4 CIDR as net.ParseCIDR returns it: the host bits of `network` are clear. */
  datatype Prefix = Prefix(network: IPv4, ones: nat) {
    predicate Valid() { ones <= 32 && network % Pow2(32 - ones) == 0 }

    function Broadcast(): int
      requires Valid()
    {
      network + Pow2(32 - ones) - 1
    }

    predicate Contains(ip: IPv4)
      requires Valid()
    {
      network <= ip <= Broadcast()
    }

    /** Strictly between network and broadcast address. */
    predicate IsHost(ip: int)
      requires Valid()
    {
      network < ip < Broadcast()
    }
  }

  type Subnet = p: Prefix | p.Valid() witness Prefix(0, 32)

  lemma MultipleFits(n: int, p: int, q: int)
    requires p >= 1 && n % p == 0 && n < p * q
    ensures n + p <= p * q
  {
    var k := n / p;
    MultipleIsFar(p, k - q);
    assert n == p * k && p * (k - q) == p * k - p * q;
    if k != q - 1 { MultipleIsFar(p, k - q + 1); assert p * (k - q + 1) == p * (k - q) + p; }
  }

  lemma ProperFactor(p: int, q: int)
    requires p >= 1 && q >= 2
    ensures p < p * q
  {}

  lemma SizesMultiply(ones: nat)
    requires ones <= 32
    ensures Pow2(32 - ones) * Pow2(ones) == TWO32
    ensures if ones == 0 then Pow2(32 - ones) == TWO32 else Pow2(32 - ones) < TWO32
  {
    Pow2Splits(32 - ones, ones);
    Pow2Of32();
    if ones > 0 {
      assert Pow2(ones) == 2 * Pow2(ones - 1);
      ProperFactor(Pow2(32 - ones), Pow2(ones));
    }
  }

  /** No uint32 overflow: the whole subnet lies below 2^32. */
  lemma SubnetFits(sub: Subnet)
    ensures sub.Broadcast() < TWO32
    ensures if sub.ones == 0 then Pow2(32 - sub.ones) == TWO32 else Pow2(32 - sub.ones) < TWO32
  {
    hide Pow2;
    SizesMultiply(sub.ones);
    MultipleFits(sub.network, Pow2(32 - sub.ones), Pow2(sub.ones));
  }

  /** The lowest address in [lo, hi) that is not used. */
  function FirstFree(used: set<IPv4>, lo: int, hi: int): (r: Option<IPv4>)
    requires 0 <= lo && hi < TWO32
    ensures r.Some? ==> lo <= r.value < hi && r.value !in used && forall ip: IPv4 :: lo <= ip < r.value ==> ip in used
    ensures r.None? ==> forall ip: IPv4 :: lo <= ip < hi ==> ip in used
    decreases hi - lo
  {
    if lo >= hi then None
    else if lo in used then FirstFree(used, lo + 1, hi)
    else Some(lo)
  }

  /** What allocateIP returns, None when the subnet is missing or exhausted. */
  function Choose(pool: map<ClientID, IPv4>, id: ClientID, subnet: Option<Subnet>, serverIP: IPv4): (r: Option<IPv4>)
    ensures id in pool ==> r == Some(pool[id])
  {
    if id in pool then Some(pool[id])
    else if subnet.None? then None
    else
      SubnetFits(subnet.value);
      FirstFree(pool.Values + {serverIP}, subnet.value.network + 1, subnet.value.Broadcast())
  }

  /** The offset of the broadcast address, as the source computes it: uint32(1) << 32 is 0. */
  function MaxHosts(ones: nat): UInt32
    requires ones <= 32
  {
    var shifted := if ones == 0 then 0 else Pow2(32 - ones);
    (shifted - 1) % TWO32
  }

  lemma MaxHostsIsBroadcastOffset(sub: Subnet)
    ensures sub.network + MaxHosts(sub.ones) == sub.Broadcast()
  {
    hide Pow2;
    SubnetFits(sub);
  }

  /** The search loop, in the source's uint32 arithmetic. */
  method FindFree(sub: Subnet, used: set<IPv4>) returns (r: Option<IPv4>)
    requires sub.Broadcast() < TWO32
    ensures r == FirstFree(used, sub.network + 1, sub.Broadcast())
  {
    hide MaxHosts;
    MaxHostsIsBroadcastOffset(sub);
    var maxHosts := MaxHosts(sub.ones);
    var offset: UInt32 := 1;
    while offset < maxHosts
      invariant 1 <= offset
      invariant FirstFree(used, sub.network + offset, sub.Broadcast())
             == FirstFree(used, sub.network + 1, sub.Broadcast())
    {
      var candidate: IPv4 := (sub.network + offset) % TWO32;
      if candidate !in used {
        return Some(candidate);
      }
      offset := offset + 1;
    }
    return None;
  }

  /** A new lease is the lowest free host, never the server's and never another client's. */
  lemma NewLeaseIsLowestFree(pool: map<ClientID, IPv4>, id: ClientID, subnet: Option<Subnet>, serverIP: IPv4)
    requires id !in pool
    ensures var r := Choose(pool, id, subnet, serverIP);
            r.Some? ==>
              && subnet.Some? && subnet.value.IsHost(r.value)
              && r.value != serverIP && r.value !in pool.Values && r.value != UNSPECIFIED
              && forall ip: IPv4 :: subnet.value.IsHost(ip) && ip < r.value ==> ip == serverIP || ip in pool.Values
  {
    hide Pow2, FirstFree;
    var r, used := Choose(pool, id, subnet, serverIP), pool.Values + {serverIP};
    if r.Some? {
      SubnetFits(subnet.value);
      assert subnet.value.IsHost(r.value) && r.value !in used;
      forall ip: IPv4 | subnet.value.IsHost(ip) && ip < r.value ensures ip in used {}
    }
  }

  /** Allocation fails exactly when there is no lease and no free host. */
  lemma FailsOnlyWhenExhausted(pool: map<ClientID, IPv4>, id: ClientID, subnet: Option<Subnet>, serverIP: IPv4)
    ensures Choose(pool, id, subnet, serverIP).None? <==>
            && id !in pool
            && (subnet.Some? ==> forall ip: IPv4 :: subnet.value.IsHost(ip) ==> ip == serverIP || ip in pool.Values)
  {
    if subnet.Some? {
      hide Pow2, FirstFree;
      SubnetFits(subnet.value);
      var r, used := Choose(pool, id, subnet, serverIP), pool.Values + {serverIP};
      if r.None? {
        forall ip: IPv4 | subnet.value.IsHost(ip) ensures ip in used {}
      } else if id !in pool {
        assert subnet.value.IsHost(r.value) && r.value !in used;
      }
    }
  }

  lemma {:induction false} UsedCoversRange(used: set<IPv4>, lo: int, hi: int)
    requires 0 <= lo <= hi <= TWO32 && forall ip: IPv4 :: lo <= ip < hi ==> ip in used
    ensures |used| >= hi - lo
    decreases hi - lo
  {
    if lo < hi {
      UsedCoversRange(used - {lo}, lo + 1, hi);
    }
  }

  lemma {:induction false} SubsetSize<T>(a: set<T>, b: set<T>)
    requires a <= b
    ensures |a| <= |b|
  {
    assert b == a + (b - a);
  }

  lemma {:induction false} FewValues(pool: map<ClientID, IPv4>)
    ensures |pool.Values| <= |pool|
    decreases pool.Keys
  {
    if pool.Keys == {} {
      assert pool.Values == {};
    } else {
      var c :| c in pool;
      var rest := pool - {c};
      FewValues(rest);
      forall v | v in pool.Values ensures v in rest.Values + {pool[c]} {
        var d :| d in pool && pool[d] == v;
        assert d != c ==> d in rest && rest[d] == v;
      }
      SubsetSize(pool.Values, rest.Values + {pool[c]});
      assert |rest.Values + {pool[c]}| <= |rest.Values| + 1;
      assert pool.Keys == rest.Keys + {c};
    }
  }

  /** By pigeonhole, a subnet with more hosts than leases (and the server) always yields an address. */
  lemma EnoughHosts(pool: map<ClientID, IPv4>, id: ClientID, sub: Subnet, serverIP: IPv4)
    requires |pool| + 1 < Pow2(32 - sub.ones) - 2
    ensures Choose(pool, id, Some(sub), serverIP).Some?
  {
    SubnetFits(sub);
    var used := pool.Values + {serverIP};
    FewValues(pool);
    assert |used| <= |pool.Values| + 1;
    if FirstFree(used, sub.network + 1, sub.Broadcast()).None? {
      UsedCoversRange(used, sub.network + 1, sub.Broadcast());
    }
  }
}
