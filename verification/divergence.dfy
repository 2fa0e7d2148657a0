/**
 * Where two views of one history part, found from samples at doubling distances behind a head
 * (spsync/core/divergence.cpp). Sequence numbers are 64 bit, 0 is none.
 */
module Divergence {
  import opened Common
  import opened Octets

  const MAX_SHIFT := 63

  // ---------------------------------------------------------------- the samples

  /** the head and the sequences 1, 2, 4, ... behind it, newest first */
  ghost predicate Doubling(head: nat, s: seq<nat>) {
    && |s| > 0 && s[0] == head
    && forall i :: 0 < i < |s| ==> s[i] == head - Pow2(i - 1)
  }

  ghost predicate Decreasing(s: seq<nat>) {
    forall i, j :: 0 <= i < j < |s| ==> s[j] < s[i]
  }

  /** from one sample to the next the distance behind the head at most doubles; the first step is one */
  ghost predicate HalfSpaced(head: nat, s: seq<nat>) {
    forall i :: 0 < i < |s| ==> NextWithin(head, s[i - 1], s[i])
  }

  predicate NextWithin(head: int, newer: int, older: int) {
    if newer == head then head - older == 1 else head - older <= 2 * (head - newer)
  }

  ghost predicate SamplesOf(head: nat, s: seq<nat>) {
    && |s| > 0 && s[0] == head && s[|s| - 1] == 1 && Decreasing(s) &&
       (HalfSpaced(head, s) <==> head <= Pow2(MAX_SHIFT) + 1)
  }

  /** far behind a head beyond 2^63 + 1 the samples are further apart than a factor of two */
  method SampleSequences(head: nat) returns (s: seq<nat>)
    ensures head == 0 ==> s == []
    ensures head > 0 ==> SamplesOf(head, s)
  {
    s := [];
    if head != 0 {
      s := [head];
      var shift := 0;
      while shift < MAX_SHIFT && Pow2(shift) < head
        invariant shift <= MAX_SHIFT && |s| == shift + 1 && Doubling(head, s)
        invariant shift > 0 ==> Pow2(shift - 1) < head
      {
        s := s + [head - Pow2(shift)];
        shift := shift + 1;
      }
      DoublingSteps(head, s);
      if s[|s| - 1] != 1 {
        LastStep(head, s);
        s := s + [1];
      } else {
        ShortEnough(head, s);
      }
    }
  }

  lemma {:induction false} Pow2Grows(a: nat, b: nat)
    requires a < b
    ensures Pow2(a) < Pow2(b)
  {
    if a + 1 < b {
      Pow2Grows(a, b - 1);
    }
  }

  lemma DoublingSteps(head: nat, s: seq<nat>)
    requires Doubling(head, s) && (|s| > 1 ==> Pow2(|s| - 2) < head)
    ensures Decreasing(s) && HalfSpaced(head, s) && (head > 0 ==> s[|s| - 1] > 0)
  {
    forall i, j | 0 <= i < j < |s|
      ensures s[j] < s[i]
    {
      if i > 0 {
        Pow2Grows(i - 1, j - 1);
      }
    }
    forall i | 0 < i < |s|
      ensures NextWithin(head, s[i - 1], s[i])
    {
      if i > 1 {
        assert Pow2(i - 1) == 2 * Pow2(i - 2) && s[i - 1] < s[0];
      }
    }
  }

  /** the first record, put after the last of the doubling samples */
  lemma OneMore(head: nat, s: seq<nat>)
    requires |s| > 0 && Decreasing(s) && HalfSpaced(head, s) && s[|s| - 1] > 1
    ensures Decreasing(s + [1]) && (HalfSpaced(head, s + [1]) <==> NextWithin(head, s[|s| - 1], 1))
  {
    var n, t := |s|, s + [1];
    assert t[n - 1] == s[n - 1] && t[n] == 1;
    if HalfSpaced(head, t) {
      assert NextWithin(head, t[n - 1], t[n]);
    }
  }

  lemma LastStep(head: nat, s: seq<nat>)
    requires Doubling(head, s) && Decreasing(s) && HalfSpaced(head, s) && s[|s| - 1] > 1
    requires |s| - 1 == MAX_SHIFT || (|s| - 1 < MAX_SHIFT && Pow2(|s| - 1) >= head)
    ensures SamplesOf(head, s + [1])
  {
    var n := |s| - 1;
    assert n > 0 && s[n] == head - Pow2(n - 1) && Pow2(n) == 2 * Pow2(n - 1) && s[n] < s[0];
    assert NextWithin(head, s[n], 1) <==> head <= Pow2(n) + 1;
    if n < MAX_SHIFT {
      Pow2Grows(n, MAX_SHIFT);
    }
    OneMore(head, s);
  }

  lemma ShortEnough(head: nat, s: seq<nat>)
    requires Doubling(head, s) && Decreasing(s) && HalfSpaced(head, s) && s[|s| - 1] == 1 && |s| - 1 <= MAX_SHIFT
    ensures SamplesOf(head, s)
  {
    if |s| > 1 {
      assert head == Pow2(|s| - 2) + 1;
      Pow2Grows(|s| - 2, MAX_SHIFT);
    } else {
      Pow2Grows(0, MAX_SHIFT);
    }
  }

  // ---------------------------------------------------------------- the bounds

  datatype Block = Block(sequence: nat, hash: OctetVector)

  /** 0 for none */
  datatype Bounds = Bounds(lastCommon: nat, firstDivergent: nat)

  predicate Agrees(b: Block, held: nat -> OctetVector) {
    b.sequence != 0 && held(b.sequence) != [] && held(b.sequence) == b.hash
  }

  predicate Conflicts(b: Block, held: nat -> OctetVector) {
    b.sequence != 0 && held(b.sequence) != [] && held(b.sequence) != b.hash
  }

  /** the newest common sample and the oldest one held under another hash */
  ghost predicate IsDivergence(samples: seq<Block>, held: nat -> OctetVector, d: Bounds) {
    && (forall i :: 0 <= i < |samples| && Agrees(samples[i], held) ==> samples[i].sequence <= d.lastCommon)
    && (d.lastCommon != 0 ==> exists i ::
                                0 <= i < |samples| && Agrees(samples[i], held) && samples[i].sequence == d.lastCommon)
    && (forall i :: 0 <= i < |samples| && Conflicts(samples[i], held) ==> 0 < d.firstDivergent <= samples[i].sequence)
    && (d.firstDivergent != 0 ==>
          exists i :: 0 <= i < |samples| && Conflicts(samples[i], held) && samples[i].sequence == d.firstDivergent)
  }

  method FindDivergence(samples: seq<Block>, held: nat -> OctetVector) returns (d: Bounds)
    ensures IsDivergence(samples, held, d)
  {
    d := Bounds(0, 0);
    var k := 0;
    while k < |samples|
      invariant k <= |samples| && IsDivergence(samples[..k], held, d)
    {
      var sample := samples[k];
      var hash := if sample.sequence != 0 then held(sample.sequence) else [];
      ghost var before := d;
      if hash != [] {
        if hash == sample.hash {
          d := d.(lastCommon := if d.lastCommon < sample.sequence then sample.sequence else d.lastCommon);
        } else if d.firstDivergent == 0 || sample.sequence < d.firstDivergent {
          d := d.(firstDivergent := sample.sequence);
        }
      }
      DivergenceNext(samples[..k], sample, held, before, d);
      assert samples[..k + 1] == samples[..k] + [sample];
      k := k + 1;
    }
    assert samples[..k] == samples;
  }

  lemma DivergenceNext(samples: seq<Block>, b: Block, held: nat -> OctetVector, d: Bounds, d': Bounds)
    requires IsDivergence(samples, held, d)
    requires d'.lastCommon == if Agrees(b, held) && d.lastCommon < b.sequence then b.sequence else d.lastCommon
    requires d'.firstDivergent == if Conflicts(b, held) && (d.firstDivergent == 0 || b.sequence < d.firstDivergent)
                                  then b.sequence else d.firstDivergent
    ensures IsDivergence(samples + [b], held, d')
  {
    var all := samples + [b];
    assert all[|samples|] == b;
    if d.lastCommon != 0 {
      var i :| 0 <= i < |samples| && Agrees(samples[i], held) && samples[i].sequence == d.lastCommon;
      assert all[i] == samples[i];
    }
    if d.firstDivergent != 0 {
      var i :| 0 <= i < |samples| && Conflicts(samples[i], held) && samples[i].sequence == d.firstDivergent;
      assert all[i] == samples[i];
    }
  }

  // ---------------------------------------------------------------- bracketing a fork

  /** the samples of one history, with its hashes */
  ghost predicate Sampled(s: seq<nat>, hashes: nat -> OctetVector, samples: seq<Block>) {
    |samples| == |s| && forall i :: 0 <= i < |s| ==> samples[i] == Block(s[i], hashes(s[i]))
  }

  /** the log holds everything up to the head and agrees with the other history exactly below the fork */
  ghost predicate Forked(head: nat, fork: nat, hashes: nat -> OctetVector, held: nat -> OctetVector) {
    forall q: nat :: 1 <= q <= head ==> held(q) != [] && (held(q) == hashes(q) <==> q < fork)
  }

  /** the first of decreasing samples that lies below the fork */
  lemma {:induction false} FirstBelow(s: seq<nat>, fork: nat) returns (k: nat)
    requires Decreasing(s)
    ensures k <= |s| && (forall i :: 0 <= i < k ==> s[i] >= fork) && (forall i :: k <= i < |s| ==> s[i] < fork)
  {
    k := 0;
    if s != [] && s[0] >= fork {
      var t := s[1..];
      assert forall i :: 0 <= i < |t| ==> t[i] == s[i + 1];
      k := FirstBelow(t, fork);
      k := k + 1;
      assert forall i :: 0 < i < |s| ==> s[i] == t[i - 1];
    }
  }

  lemma NewestCommon(s: seq<nat>, samples: seq<Block>, held: nat -> OctetVector, k: nat, d: Bounds)
    requires Decreasing(s) && |samples| == |s| && (forall i :: 0 <= i < |s| ==> samples[i].sequence == s[i])
    requires k < |s| && IsDivergence(samples, held, d)
    requires forall i :: 0 <= i < |s| ==> (Agrees(samples[i], held) <==> i >= k)
    ensures d.lastCommon == s[k]
  {
    assert Agrees(samples[k], held);
    var i :| 0 <= i < |samples| && Agrees(samples[i], held) && samples[i].sequence == d.lastCommon;
  }

  lemma OldestConflict(s: seq<nat>, samples: seq<Block>, held: nat -> OctetVector, k: nat, d: Bounds)
    requires Decreasing(s) && |samples| == |s| && (forall i :: 0 <= i < |s| ==> samples[i].sequence == s[i])
    requires 0 < k <= |s| && IsDivergence(samples, held, d)
    requires forall i :: 0 <= i < |s| ==> (Conflicts(samples[i], held) <==> i < k)
    ensures d.firstDivergent == s[k - 1]
  {
    assert Conflicts(samples[k - 1], held);
    var i :| 0 <= i < |samples| && Conflicts(samples[i], held) && samples[i].sequence == d.firstDivergent;
  }

  /** the bounds are the samples next to the fork on either side */
  lemma BoundsAre(head: nat, fork: nat, s: seq<nat>, hashes: nat -> OctetVector, held: nat -> OctetVector,
                  samples: seq<Block>, d: Bounds, k: nat)
    requires Decreasing(s) && |s| > 0 && s[0] == head && s[|s| - 1] == 1
    requires Sampled(s, hashes, samples) && Forked(head, fork, hashes, held) && IsDivergence(samples, held, d)
    requires k <= |s| && (forall i :: 0 <= i < k ==> s[i] >= fork) && (forall i :: k <= i < |s| ==> s[i] < fork)
    ensures d == Bounds(if k < |s| then s[k] else 0, if k > 0 then s[k - 1] else 0)
  {
    assert forall i :: 0 <= i < |s| ==> 1 <= s[i] <= head;
    assert forall i :: 0 <= i < |s| ==>
                         (Agrees(samples[i], held) <==> i >= k) && (Conflicts(samples[i], held) <==> i < k);
    if k < |s| {
      NewestCommon(s, samples, held, k, d);
    }
    if k > 0 {
      OldestConflict(s, samples, held, k, d);
    }
  }

  /**
   * The bounds enclose the fork: no bound when there is none up to the head, otherwise the last
   * common sample lies below it and the first divergent one not, and up to 2^63 + 1 the one is at
   * most twice as far behind the head as the other.
   */
  lemma BracketsFork(head: nat, fork: nat, s: seq<nat>, hashes: nat -> OctetVector, held: nat -> OctetVector,
                     samples: seq<Block>, d: Bounds)
    requires head > 0 && fork > 0 && SamplesOf(head, s) && Sampled(s, hashes, samples)
    requires Forked(head, fork, hashes, held)
    requires IsDivergence(samples, held, d)
    ensures fork > head ==> d == Bounds(head, 0)
    ensures fork <= head ==>
              && d.lastCommon < fork <= d.firstDivergent <= head
              && (d.lastCommon == 0 <==> fork == 1)
              && (head <= Pow2(MAX_SHIFT) + 1 ==> NextWithin(head, d.firstDivergent, d.lastCommon))
  {
    var k := FirstBelow(s, fork);
    BoundsAre(head, fork, s, hashes, held, samples, d, k);
    if 0 < k < |s| && HalfSpaced(head, s) {
      assert NextWithin(head, s[k - 1], s[k]);
    }
  }

  /** the factor of two is not kept for a fork that the samples place there */
  ghost predicate Missed(head: nat, s: seq<nat>, fork: nat) {
    forall hashes: nat -> OctetVector, held: nat -> OctetVector, samples: seq<Block>, d: Bounds ::
      Sampled(s, hashes, samples) && Forked(head, fork, hashes, held) && IsDivergence(samples, held, d) ==>
      !NextWithin(head, d.firstDivergent, d.lastCommon)
  }

  lemma UnevenMisses(head: nat, s: seq<nat>) returns (fork: nat)
    requires Decreasing(s) && |s| > 0 && s[0] == head && s[|s| - 1] == 1 && !HalfSpaced(head, s)
    ensures 1 < fork <= head && Missed(head, s, fork)
  {
    var k :| 0 < k < |s| && !NextWithin(head, s[k - 1], s[k]);
    fork := s[k - 1];
    forall hashes: nat -> OctetVector, held: nat -> OctetVector, samples: seq<Block>, d: Bounds |
      Sampled(s, hashes, samples) && Forked(head, fork, hashes, held) && IsDivergence(samples, held, d)
      ensures !NextWithin(head, d.firstDivergent, d.lastCommon)
    {
      BoundsAre(head, fork, s, hashes, held, samples, d, k);
    }
  }

  /** a log that forks there from a history under the given hashes, and its samples */
  lemma ForkExists(head: nat, s: seq<nat>, fork: nat)
    returns (hashes: nat -> OctetVector, held: nat -> OctetVector, samples: seq<Block>)
    ensures Sampled(s, hashes, samples) && Forked(head, fork, hashes, held)
  {
    hashes := q => [1];
    held := q => if q < fork then [1] else [2];
    samples := seq(|s|, i requires 0 <= i < |s| => Block(s[i], [1]));
  }

  /** beyond 2^63 + 1 some fork is placed less well than within the factor of two */
  lemma FarHeadsMiss(head: nat, s: seq<nat>) returns (fork: nat)
    requires SamplesOf(head, s) && head > Pow2(MAX_SHIFT) + 1
    ensures 1 < fork <= head && Missed(head, s, fork)
    ensures exists hashes, held, samples :: Sampled(s, hashes, samples) && Forked(head, fork, hashes, held)
  {
    fork := UnevenMisses(head, s);
    var hashes, held, samples := ForkExists(head, s, fork);
  }
}
