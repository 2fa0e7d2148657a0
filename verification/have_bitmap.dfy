/**
 * Which chunks of a data are held: one bit per chunk, chunk 0 the lowest bit of the first octet
 * (spsync/core/data/have_bitmap.cpp). The octets represent a set of chunk numbers, and only one
 * octet vector represents a given set.
 */
module ChunkBitmap {
  // ---------------------------------------------------------------- bits

  /** 1 << i */
  function Bit(i: nat): bv8
    requires i < 8
  {
    if i == 0 then 1 else if i == 1 then 2 else if i == 2 then 4 else if i == 3 then 8
    else if i == 4 then 16 else if i == 5 then 32 else if i == 6 then 64 else 128
  }

  predicate BitSet(octet: bv8, i: nat)
    requires i < 8
  {
    octet & Bit(i) != 0
  }

  /** the number of one bits */
  function PopCount(octet: bv8): nat {
    PopCountBelow(octet, 8)
  }

  function PopCountBelow(octet: bv8, n: nat): nat
    requires n <= 8
  {
    if n == 0 then 0 else PopCountBelow(octet, n - 1) + if BitSet(octet, n - 1) then 1 else 0
  }

  lemma MaskKeepsLow(octet: bv8, used: nat, i: nat)
    requires 0 < used < 8 && i < 8
    ensures BitSet(octet & (Bit(used) - 1), i) == (i < used && BitSet(octet, i))
  {
  }

  lemma BitPut(octet: bv8, j: nat, i: nat)
    requires i < 8 && j < 8
    ensures BitSet(octet | Bit(j), i) == (i == j || BitSet(octet, i))
    ensures BitSet(octet & !Bit(j), i) == (i != j && BitSet(octet, i))
  {
  }

  lemma AllOrNone(i: nat)
    requires i < 8
    ensures BitSet(0xff, i) && !BitSet(0, i)
  {
  }

  /** an octet is its bits */
  lemma OctetsEqual(a: bv8, b: bv8)
    requires forall i: nat | i < 8 :: BitSet(a, i) == BitSet(b, i)
    ensures a == b
  {
    assert BitSet(a, 0) == BitSet(b, 0) && BitSet(a, 1) == BitSet(b, 1) && BitSet(a, 2) == BitSet(b, 2);
    assert BitSet(a, 3) == BitSet(b, 3) && BitSet(a, 4) == BitSet(b, 4) && BitSet(a, 5) == BitSet(b, 5);
    assert BitSet(a, 6) == BitSet(b, 6) && BitSet(a, 7) == BitSet(b, 7);
  }

  // ---------------------------------------------------------------- octets as sets

  function OctetCount(count: nat): nat {
    (count + 7) / 8
  }

  predicate Has(octets: seq<bv8>, no: nat) {
    no / 8 < |octets| && BitSet(octets[no / 8], no % 8)
  }

  /** the set of chunks that octets say are held, of a data with the given number of chunks */
  ghost function HeldIn(count: nat, octets: seq<bv8>): set<nat> {
    set no: nat | no < count && Has(octets, no)
  }

  /** every chunk of the data */
  ghost predicate Everything(count: nat, held: set<nat>) {
    forall no: nat :: no < count ==> no in held
  }

  /** the length is that of the chunk count, the unused bits of the last octet are zero */
  ghost predicate Normal(count: nat, octets: seq<bv8>) {
    && |octets| == OctetCount(count)
    && forall no: nat :: no < 8 * |octets| && Has(octets, no) ==> no < count
  }

  lemma {:induction false} FullSize(count: nat, held: set<nat>)
    requires forall no :: no in held ==> no < count
    ensures |held| <= count && (|held| == count <==> Everything(count, held))
  {
    if count > 0 {
      var rest := held - {count - 1};
      FullSize(count - 1, rest);
      assert held == if count - 1 in held then rest + {count - 1} else rest;
    }
  }

  /** peers that exchange octets exchange sets: one normal octet vector per set */
  lemma OneFormPerSet(count: nat, a: seq<bv8>, b: seq<bv8>)
    requires Normal(count, a) && Normal(count, b) && HeldIn(count, a) == HeldIn(count, b)
    ensures a == b
  {
    forall k: nat | k < |a|
      ensures a[k] == b[k]
    {
      forall i: nat | i < 8
        ensures BitSet(a[k], i) == BitSet(b[k], i)
      {
        var no := 8 * k + i;
        assert no / 8 == k && no % 8 == i;
        assert Has(a, no) == (no in HeldIn(count, a)) && Has(b, no) == (no in HeldIn(count, b));
      }
      OctetsEqual(a[k], b[k]);
    }
  }

  /** as many bits as chunks: the sum over the octets counts the set */
  ghost function HeldBelow(octets: seq<bv8>, n: nat): set<nat> {
    set no: nat | no < n && Has(octets, no)
  }

  lemma HeldBelowNext(octets: seq<bv8>, no: nat)
    ensures |HeldBelow(octets, no + 1)| == |HeldBelow(octets, no)| + if Has(octets, no) then 1 else 0
  {
    assert HeldBelow(octets, no + 1) == HeldBelow(octets, no) + (if Has(octets, no) then {no} else {});
  }

  lemma {:induction false} OctetCounts(octets: seq<bv8>, k: nat, n: nat)
    requires k < |octets| && n <= 8
    ensures |HeldBelow(octets, 8 * k + n)| == |HeldBelow(octets, 8 * k)| + PopCountBelow(octets[k], n)
  {
    if n > 0 {
      OctetCounts(octets, k, n - 1);
      var no := 8 * k + n - 1;
      HeldBelowNext(octets, no);
      assert no / 8 == k && no % 8 == n - 1;
      assert Has(octets, no) == BitSet(octets[k], n - 1);
    }
  }

  class HaveBitmap {
    var octets: seq<bv8>
    const count: nat

    ghost predicate Valid()
      reads this
    {
      Normal(count, octets)
    }

    /** the chunks held */
    ghost function Held(): set<nat>
      reads this
    {
      HeldIn(count, octets)
    }

    /** nothing held */
    constructor (count: nat)
      ensures Valid() && Held() == {} && this.count == count
    {
      this.count := count;
      octets := seq(OctetCount(count), _ => 0);
      new;
      NothingHeld(octets);
    }

    /** from stored octets: another length and stray bits are put right, every other bit is kept */
    constructor FromOctets(count: nat, stored: seq<bv8>)
      ensures Valid() && this.count == count && Held() == HeldIn(count, stored)
      ensures Normal(count, stored) ==> octets == stored
    {
      this.count, octets := count, stored;
      new;
      Normalise();
      if Normal(count, stored) {
        OneFormPerSet(count, stored, octets);
      }
    }

    method Normalise()
      modifies this
      ensures Valid() && Held() == old(Held())
    {
      var n := OctetCount(count);
      octets := if |octets| < n then octets + seq(n - |octets|, _ => 0) else octets[..n];
      ResizedHolds(count, old(octets), octets);
      var used := count % 8;
      if used != 0 {
        ghost var before := octets;
        octets := octets[n - 1 := octets[n - 1] & (Bit(used) - 1)];
        Masked(count, before, octets);
      }
    }

    method Test(no: nat) returns (held: bool)
      requires Valid()
      ensures held <==> no in Held()
    {
      held := no < count && octets[no / 8] & Bit(no % 8) != 0;
      assert no < count ==> (held <==> Has(octets, no));
    }

    /** a chunk number past the end is ignored */
    method Set(no: nat, held: bool)
      requires Valid()
      modifies this
      ensures Valid()
      ensures Held() == if no >= count then old(Held()) else if held then old(Held()) + {no} else old(Held()) - {no}
    {
      if no < count {
        var k := no / 8;
        octets := octets[k := if held then octets[k] | Bit(no % 8) else octets[k] & !Bit(no % 8)];
        Put(count, old(octets), octets, no, held);
      }
    }

    method SetAll()
      requires Valid()
      modifies this
      ensures Valid() && Everything(count, Held())
    {
      var k := 0;
      while k < |octets|
        invariant k <= |octets| == OctetCount(count) && forall j :: 0 <= j < k ==> octets[j] == 0xff
      {
        octets := octets[k := 0xff];
        k := k + 1;
      }
      EverythingHeld(count, octets);
      Normalise();
    }

    method Clear()
      requires Valid()
      modifies this
      ensures Valid() && Held() == {}
    {
      var k := 0;
      while k < |octets|
        invariant k <= |octets| == OctetCount(count) && forall j :: 0 <= j < k ==> octets[j] == 0
      {
        octets := octets[k := 0];
        k := k + 1;
      }
      NothingHeld(octets);
    }

    method Count() returns (n: nat)
      requires Valid()
      ensures n == |Held()|
    {
      n := 0;
      var k := 0;
      assert HeldBelow(octets, 0) == {};
      while k < |octets|
        invariant k <= |octets| && n == |HeldBelow(octets, 8 * k)|
      {
        OctetCounts(octets, k, 8);
        n := n + PopCount(octets[k]);
        k := k + 1;
      }
      assert HeldBelow(octets, 8 * |octets|) == Held();
    }

    method Complete() returns (complete: bool)
      requires Valid()
      ensures complete <==> Everything(count, Held())
    {
      var n := Count();
      complete := n == count;
      FullSize(count, Held());
    }

    /** the first chunk not held at or after from; the number of chunks when there is none */
    method FirstMissing(from: nat) returns (no: nat)
      requires Valid()
      ensures no <= count && no !in Held() && (from <= no || no == count)
      ensures forall k :: from <= k < no ==> k in Held()
    {
      no := if from < count then from else count;
      var more := no < count;
      if more {
        more := Test(no);
      }
      while more
        invariant no <= count && (from <= no || no == count) && (more <==> no in Held())
        invariant forall k :: from <= k < no ==> k in Held()
        decreases count - no
      {
        no := no + 1;
        more := no < count;
        if more {
          more := Test(no);
        }
      }
    }
  }

  // ---------------------------------------------------------------- steps on the octets

  lemma NothingHeld(octets: seq<bv8>)
    requires forall k :: 0 <= k < |octets| ==> octets[k] == 0
    ensures forall no: nat :: !Has(octets, no)
  {
    forall no: nat
      ensures !Has(octets, no)
    {
      AllOrNone(no % 8);
    }
  }

  lemma EverythingHeld(count: nat, octets: seq<bv8>)
    requires |octets| == OctetCount(count) && forall k :: 0 <= k < |octets| ==> octets[k] == 0xff
    ensures Everything(count, HeldIn(count, octets))
  {
    forall no: nat | no < count
      ensures Has(octets, no)
    {
      AllOrNone(no % 8);
    }
  }

  ghost predicate Resized(a: seq<bv8>, b: seq<bv8>) {
    && (forall k :: 0 <= k < |a| && k < |b| ==> a[k] == b[k])
    && (forall k :: |a| <= k < |b| ==> b[k] == 0)
  }

  lemma ResizedHolds(count: nat, a: seq<bv8>, b: seq<bv8>)
    requires Resized(a, b) && |b| == OctetCount(count)
    ensures HeldIn(count, a) == HeldIn(count, b)
  {
    forall no: nat | no < count
      ensures Has(a, no) == Has(b, no)
    {
      AllOrNone(no % 8);
      assert no / 8 < |b|;
    }
  }

  lemma MaskedAt(count: nat, a: seq<bv8>, b: seq<bv8>, no: nat)
    requires |a| == OctetCount(count) && count % 8 != 0
    requires b == a[|a| - 1 := a[|a| - 1] & (Bit(count % 8) - 1)]
    ensures Has(b, no) == (no < count && Has(a, no))
  {
    assert count == 8 * (|a| - 1) + count % 8;
    if no / 8 == |a| - 1 {
      MaskKeepsLow(a[|a| - 1], count % 8, no % 8);
      assert no == 8 * (|a| - 1) + no % 8;
    }
  }

  lemma Masked(count: nat, a: seq<bv8>, b: seq<bv8>)
    requires |a| == OctetCount(count) && count % 8 != 0
    requires b == a[|a| - 1 := a[|a| - 1] & (Bit(count % 8) - 1)]
    ensures Normal(count, b) && HeldIn(count, a) == HeldIn(count, b)
  {
    forall no: nat
      ensures Has(b, no) == (no < count && Has(a, no))
    {
      MaskedAt(count, a, b, no);
    }
  }

  lemma Put(count: nat, a: seq<bv8>, b: seq<bv8>, no: nat, held: bool)
    requires Normal(count, a) && no < count && no / 8 < |a|
    requires b == a[no / 8 := if held then a[no / 8] | Bit(no % 8) else a[no / 8] & !Bit(no % 8)]
    ensures Normal(count, b)
    ensures HeldIn(count, b) == if held then HeldIn(count, a) + {no} else HeldIn(count, a) - {no}
  {
    forall m: nat
      ensures Has(b, m) == if m == no then held else Has(a, m)
    {
      BitPut(a[no / 8], no % 8, m % 8);
      assert m == 8 * (m / 8) + m % 8 && no == 8 * (no / 8) + no % 8;
    }
  }
}
