/**
 * internal/client/client.go: in-place IPv4 header checksum (section 3.1 of RFC 791,
 * algorithm of section 1 of RFC 1071) and the source rewrite before it.
 */
module Checksum {
  import opened Basics
  import opened Packet

  const M: int := 0xFFFF

  // ---- The sum as RFC 1071 defines it: 16-bit one's complement addition ----

  function Word(h: Bytes, i: nat): (w: UInt16)
    requires 2 * i + 1 < |h|
  {
    (h[2 * i] as int) * 256 + h[2 * i + 1]
  }

  /** One's complement addition: the carry out of the top bit is added back in. */
  function OnesAdd(a: UInt16, b: UInt16): UInt16 {
    if a + b > M then a + b - M else a + b
  }

  function OnesSum(h: Bytes, words: nat): UInt16
    requires 2 * words <= |h|
  {
    if words == 0 then 0 else OnesAdd(OnesSum(h, words - 1), Word(h, words - 1))
  }

  /** A header is accepted when the one's complement sum over all its words is all ones. */
  predicate ChecksumValid(h: Bytes) {
    OnesSum(h, |h| / 2) == M
  }

  // ---- The sum as the source computes it ----

  function PlainSum(h: Bytes, words: nat): (s: nat)
    requires 2 * words <= |h|
    ensures s <= words * M
  {
    if words == 0 then 0 else PlainSum(h, words - 1) + Word(h, words - 1)
  }

  function Fold(s: nat): (f: UInt16) {
    if s > M then Fold(s / TWO16 + s % TWO16) else s
  }

  function HeaderLength(h: Bytes): nat
    requires h != []
  {
    (h[0] as int) % 16 * 4
  }

  predicate LengthOk(h: Bytes)
    requires h != []
  {
    20 <= HeaderLength(h) <= |h|
  }

  function Cleared(h: Bytes): Bytes
    requires |h| >= 12
  {
    Spliced(h, 10, [0, 0])
  }

  /** The packet after recalcIPv4Checksum. */
  function Checksummed(h: Bytes): (r: Bytes)
    requires h != []
    ensures |r| == |h|
  {
    if !LengthOk(h) then h
    else Spliced(h, 10, PutU16(M - Fold(PlainSum(Cleared(h), HeaderLength(h) / 2))))
  }

  /** The summing loop over the ihl bytes at lo, which are those of h. */
  method SumWords(buf: array<Byte>, lo: nat, ihl: nat, ghost h: Bytes) returns (sum: UInt32)
    requires lo + ihl <= buf.Length && ihl % 2 == 0 && ihl <= 60 && ihl <= |h|
    requires forall k :: 0 <= k < ihl ==> buf[lo + k] == h[k]
    ensures sum == PlainSum(h, ihl / 2)
  {
    sum := 0;
    var i := 0;
    while i < ihl
      invariant 0 <= i <= ihl && i % 2 == 0
      invariant sum == PlainSum(h, i / 2)
    {
      assert h[i] == buf[lo + i] && h[i + 1] == buf[lo + i + 1];
      sum := sum + ((buf[lo + i] as int) * 256 + buf[lo + i + 1]);
      i := i + 2;
    }
  }

  method FoldCarries(s: UInt32) returns (sum: UInt32)
    ensures sum == Fold(s)
  {
    sum := s;
    while sum > 0xFFFF
      invariant Fold(sum) == Fold(s)
    {
      sum := sum / 0x1_0000 + sum % 0x1_0000;
    }
  }

  method WriteWord(buf: array<Byte>, at: nat, x: UInt16)
    requires at + 2 <= buf.Length
    modifies buf
    ensures buf[..] == Spliced(old(buf[..]), at, PutU16(x))
  {
    buf[at] := x / 256;
    buf[at + 1] := x % 256;
  }

  /** Writing inside a slice is writing to the buffer; a second write to the same place wins. */
  lemma SpliceInSlice(buf: Bytes, lo: nat, hi: nat, at: nat, x: Bytes, y: Bytes)
    requires lo <= hi <= |buf| && at + |x| <= hi - lo && |x| == |y|
    ensures Spliced(buf, lo + at, x)[lo..hi] == Spliced(buf[lo..hi], at, x)
    ensures Spliced(Spliced(buf, lo + at, x), lo + at, y) == Spliced(buf, lo, Spliced(buf[lo..hi], at, y))
    ensures Spliced(buf, lo, buf[lo..hi]) == buf
  {
    hide Spliced;
    var h := buf[lo..hi];
    var a, b := Spliced(buf, lo + at, x)[lo..hi], Spliced(h, at, x);
    forall k | 0 <= k < |h| ensures a[k] == b[k] {}
    var c, d := Spliced(Spliced(buf, lo + at, x), lo + at, y), Spliced(buf, lo, Spliced(h, at, y));
    forall k | 0 <= k < |buf| ensures c[k] == d[k] {}
  }

  /** Clears the checksum field and sums the header words. */
  method ClearAndSum(buf: array<Byte>, lo: nat, hi: nat) returns (sum: UInt32)
    requires lo < hi <= buf.Length && LengthOk(buf[lo..hi])
    modifies buf
    ensures buf[..] == Spliced(old(buf[..]), lo + 10, PutU16(0))
    ensures sum == PlainSum(Cleared(old(buf[lo..hi])), HeaderLength(old(buf[lo..hi])) / 2)
  {
    ghost var h := buf[lo..hi];
    var ihl := (buf[lo] as int) % 16 * 4;
    WriteWord(buf, lo + 10, 0);
    sum := SumWords(buf, lo, ihl, Cleared(h));
  }

  /** recalcIPv4Checksum on the packet at buf[lo..hi]. */
  method RecalcIPv4Checksum(buf: array<Byte>, lo: nat, hi: nat)
    requires lo < hi <= buf.Length
    modifies buf
    ensures buf[..] == Spliced(old(buf[..]), lo, Checksummed(old(buf[lo..hi])))
  {
    hide PlainSum, Fold, Spliced;
    ghost var before, h := buf[..], buf[lo..hi];
    var ihl := (buf[lo] as int) % 16 * 4;
    if ihl < 20 || ihl > hi - lo {
      SpliceInSlice(before, lo, hi, 0, [], []);
      return;
    }
    var sum := ClearAndSum(buf, lo, hi);
    sum := FoldCarries(sum);
    WriteWord(buf, lo + 10, 0xFFFF - sum);
    SpliceInSlice(before, lo, hi, 10, PutU16(0), PutU16(0xFFFF - sum));
  }

  lemma {:induction false} SumDependsOnWords(g: Bytes, h: Bytes, words: nat)
    requires 2 * words <= |g| && 2 * words <= |h|
    requires forall k :: 0 <= k < 2 * words ==> g[k] == h[k]
    ensures PlainSum(g, words) == PlainSum(h, words) && OnesSum(g, words) == OnesSum(h, words)
  {
    if words > 0 { SumDependsOnWords(g, h, words - 1); }
  }

  // ---- Correctness ----

  lemma {:induction false} FoldModulo(s: nat)
    ensures Fold(s) % M == s % M && (Fold(s) == 0 <==> s == 0)
    decreases s
  {
    if s > M {
      var t := s / TWO16 + s % TWO16;
      ResidueUnique(s, t, M, s / TWO16);
      FoldModulo(t);
    }
  }

  lemma OnesAddModulo(a: UInt16, b: UInt16, s: nat)
    requires a % M == s % M && (a == 0 <==> s == 0)
    ensures OnesAdd(a, b) % M == (s + b) % M && (OnesAdd(a, b) == 0 <==> s + b == 0)
  {}

  lemma {:induction false} OnesSumModulo(h: Bytes, words: nat)
    requires 2 * words <= |h|
    ensures OnesSum(h, words) % M == PlainSum(h, words) % M
    ensures OnesSum(h, words) == 0 <==> PlainSum(h, words) == 0
  {
    if words > 0 {
      OnesSumModulo(h, words - 1);
      OnesAddModulo(OnesSum(h, words - 1), Word(h, words - 1), PlainSum(h, words - 1));
    }
  }

  /** A sum completed by the complement of its fold is all ones. */
  lemma ComplementCompletes(s: nat, total: UInt16)
    requires total % M == (s + (M - Fold(s))) % M && (total == 0 <==> s + (M - Fold(s)) == 0)
    ensures total == M
  {
    FoldModulo(s);
  }

  /** Writing word 5 of a header whose word 5 is clear adds it to the sum. */
  lemma {:induction false} SumAfterWrite(h: Bytes, cs: UInt16, words: nat)
    requires 2 * words <= |h| && |h| >= 12
    ensures PlainSum(Spliced(h, 10, PutU16(cs)), words) == PlainSum(Cleared(h), words) + if words > 5 then cs else 0
  {
    if words > 0 {
      SumAfterWrite(h, cs, words - 1);
      var k, a, z := words - 1, Spliced(h, 10, PutU16(cs)), Cleared(h);
      assert if k == 5 then Word(a, k) == cs && Word(z, k) == 0 else Word(a, k) == Word(z, k);
    }
  }

  lemma OnlyTwoBytesChange(h: Bytes)
    requires |h| >= 12
    ensures Checksummed(h)[..10] == h[..10] && Checksummed(h)[12..] == h[12..]
  {
    hide PlainSum, Fold, PutU16;
    if LengthOk(h) {
      var r := Checksummed(h);
      forall k | 0 <= k < |h| && (k < 10 || k >= 12) ensures r[k] == h[k] {}
    }
  }

  /** After recalculation every well-formed header passes the RFC check. */
  lemma ChecksumCorrect(h: Bytes)
    requires h != []
    ensures var n := (h[0] as int) % 16 * 4;
            if 20 <= n <= |h| then ChecksumValid(Checksummed(h)[..n]) else Checksummed(h) == h
  {
    if LengthOk(h) { WellFormedChecksum(h); }
  }

  lemma WellFormedChecksum(h: Bytes)
    requires h != [] && LengthOk(h)
    ensures ChecksumValid(Checksummed(h)[..HeaderLength(h)])
  {
    hide PlainSum, Fold, OnesSum, PutU16;
    var words := HeaderLength(h) / 2;
    var s := PlainSum(Cleared(h), words);
    var r := Checksummed(h);
    SumAfterWrite(h, M - Fold(s), words);
    OnesSumModulo(r, words);
    ComplementCompletes(s, OnesSum(r, words));
    SumDependsOnWords(r[..HeaderLength(h)], r, words);
  }

  /** The source's fold at the end computes the RFC's running one's complement sum. */
  lemma FoldIsOnesSum(h: Bytes, words: nat)
    requires 2 * words <= |h|
    ensures Fold(PlainSum(h, words)) == OnesSum(h, words)
  {
    FoldModulo(PlainSum(h, words));
    OnesSumModulo(h, words);
  }

  // ---- Source rewrite ----

  function Source(p: Bytes): IPv4
    requires |p| >= 20
  {
    U32(p[12..16])
  }

  function Destination(p: Bytes): IPv4
    requires |p| >= 20
  {
    U32(p[16..20])
  }

  /** The inner packet as tunReadLoop sends it. */
  function Rewritten(p: Bytes, vip: IPv4): (r: Bytes)
    requires |p| >= 20
    ensures |r| == |p|
  {
    if vip == UNSPECIFIED then p else Checksummed(Spliced(p, 12, PutU32(vip)))
  }

  /** A registered client's packets leave with its address as source and a valid checksum; the rest is untouched. */
  lemma RewriteCorrect(p: Bytes, vip: IPv4)
    requires |p| >= 20 && vip != UNSPECIFIED
    ensures Source(Rewritten(p, vip)) == vip && Destination(Rewritten(p, vip)) == Destination(p)
    ensures var n := (p[0] as int) % 16 * 4; 20 <= n <= |p| ==> ChecksumValid(Rewritten(p, vip)[..n])
    ensures Rewritten(p, vip)[..10] == p[..10] && Rewritten(p, vip)[16..] == p[16..]
  {
    hide Checksummed, ChecksumValid, U32, PutU32;
    var q := Spliced(p, 12, PutU32(vip));
    var r := Rewritten(p, vip);
    assert q[..10] == p[..10];
    assert q[16..] == p[16..];
    assert q[0] == q[..10][0] == p[0];
    if LengthOk(p) { ChecksumCorrect(q); }
    OnlyTwoBytesChange(q);
    assert r[12..16] == r[12..][..4] == q[12..][..4] == q[12..16];
    assert r[16..] == r[12..][4..] == q[12..][4..] == q[16..];
    assert r[16..20] == r[16..][..4] == p[16..][..4] == p[16..20];
  }
}
