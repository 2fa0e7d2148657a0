/**
 * What a successful fast verification of an uncut history means: the segments walked divide
 * the history below the newest segment's end among them, name each record there once, and the
 * counters account for every record.
 */
module HistoryGuarantees {
  import opened Common
  import opened RecordStorage
  import opened HistoryVerifier

  ghost predicate Covers(m: InSync, seg: nat, q: nat) {
    seg in m && m[seg].content.Segment? && m[seg].content.start <= q < m[seg].content.end
  }

  ghost predicate Names(m: InSync, seg: nat, t: Tag) {
    seg in m && m[seg].content.Segment? && t in m[seg].content.tags
  }

  ghost predicate CoveredBy(m: InSync, path: seq<nat>, q: nat) {
    exists i :: 0 <= i < |path| && Covers(m, path[i], q)
  }

  /** every sequence below end lies in the range of exactly one segment of the path, and every other in none */
  ghost predicate Partitions(m: InSync, path: seq<nat>, end: nat) {
    && (forall q: nat :: CoveredBy(m, path, q) <==> 1 <= q < end)
    && (forall i, j, q: nat :: 0 <= i < j < |path| && Covers(m, path[i], q) ==> !Covers(m, path[j], q))
  }

  /** the segment's list is that of the held records of its range */
  ghost predicate ListExact(m: InSync, s: nat) {
    && s in m && m[s].content.Segment? && m[s].content.start < m[s].content.end
    && m[s].content.tags == TagsInRange(m, m[s].content.start, m[s].content.end - 1)
  }

  /** one segment of the path names the tag, and only one */
  ghost predicate NamedOnce(m: InSync, path: seq<nat>, t: Tag) {
    && (exists i :: 0 <= i < |path| && Names(m, path[i], t))
    && (forall i, j :: 0 <= i < j < |path| && Names(m, path[i], t) ==> !Names(m, path[j], t))
  }

  lemma {:induction false} TagsOfRange(m: InSync, first: nat, last: nat)
    requires UniqueTags(m)
    ensures forall s :: s in m ==> (m[s].tag in TagsInRange(m, first, last) <==> first <= s <= last)
    ensures forall t :: t in TagsInRange(m, first, last) ==> exists s :: s in m && m[s].tag == t
  {
    if first <= last && last != 0 {
      TagsOfRange(m, first, last - 1);
    }
  }

  lemma {:induction false} TagsCount(m: InSync, first: nat, last: nat)
    ensures |TagsInRange(m, first, last)| == |Held(m, first, last)|
  {
    if last < first || last == 0 {
      assert Held(m, first, last) == {};
    } else {
      TagsCount(m, first, last - 1);
      if last in m {
        assert Held(m, first, last) == Held(m, first, last - 1) + {last};
      } else {
        assert Held(m, first, last) == Held(m, first, last - 1);
      }
    }
  }

  lemma HeldSplits(m: InSync, first: nat, a: nat, b: nat)
    requires 1 <= first <= a <= b
    ensures |Held(m, first, b - 1)| == |Held(m, first, a - 1)| + |Held(m, a, b - 1)|
  {
    assert Held(m, first, b - 1) == Held(m, first, a - 1) + Held(m, a, b - 1);
  }

  /** one more segment in front of a path that ends where its range begins */
  lemma PartitionsNext(m: InSync, s: nat, path: seq<nat>)
    requires s in m && m[s].content.Segment? && 1 <= m[s].content.start < m[s].content.end
    requires Partitions(m, path, m[s].content.start)
    ensures Partitions(m, [s] + path, m[s].content.end)
  {
    var start, end := m[s].content.start, m[s].content.end;
    var p := [s] + path;
    forall q: nat
      ensures CoveredBy(m, p, q) <==> Covers(m, s, q) || CoveredBy(m, path, q)
    {
      if Covers(m, s, q) {
        assert Covers(m, p[0], q);
      } else if i :| 0 <= i < |path| && Covers(m, path[i], q) {
        assert Covers(m, p[i + 1], q);
      }
    }
    forall i, j, q: nat | 0 <= i < j < |p| && Covers(m, p[i], q)
      ensures !Covers(m, p[j], q)
    {
      if Covers(m, path[j - 1], q) {
        assert CoveredBy(m, path, q);
      }
    }
  }

  ghost predicate Descends(m: InSync, a: nat, b: nat) {
    && a in m && b in m && m[a].content.Segment? && m[b].content.Segment?
    && m[b].content.start < m[a].content.start
  }

  /** the ranges start further down from one segment to the next */
  ghost predicate StartsDecrease(m: InSync, path: seq<nat>) {
    forall i, j :: 0 <= i < j < |path| ==> Descends(m, path[i], path[j])
  }

  lemma StartsDecreaseNext(m: InSync, s: nat, path: seq<nat>)
    requires ListExact(m, s) && Partitions(m, path, m[s].content.start) && StartsDecrease(m, path)
    requires forall t :: t in path ==> ListExact(m, t)
    ensures StartsDecrease(m, [s] + path)
  {
    var p := [s] + path;
    forall k | 0 <= k < |path|
      ensures Descends(m, s, path[k])
    {
      assert ListExact(m, path[k]);
      assert Covers(m, path[k], m[path[k]].content.start);
      assert CoveredBy(m, path, m[path[k]].content.start);
    }
    forall i, j | 0 <= i < j < |p|
      ensures Descends(m, p[i], p[j])
    {
      assert p[j] == path[j - 1] && (i > 0 ==> p[i] == path[i - 1]);
    }
  }

  ghost predicate WalkFacts(m: InSync, c: Crypto, path: seq<nat>, end: nat, boundary: nat) {
    && end > 0 && Partitions(m, path, end) && StartsDecrease(m, path)
    && (forall s :: s in path ==> ListExact(m, s) && (s < boundary ==> Genuine(c, m[s], s)))
    && ListedCount(m, path, []) == |Held(m, 1, end - 1)|
  }

  lemma WalkFactsNext(m: InSync, c: Crypto, s: nat, path: seq<nat>, boundary: nat)
    requires UniqueTags(m) && ListExact(m, s) && m[s].content.start >= 1 && (s < boundary ==> Genuine(c, m[s], s))
    requires WalkFacts(m, c, path, m[s].content.start, boundary)
    ensures WalkFacts(m, c, [s] + path, m[s].content.end, boundary)
  {
    var d := m[s].content;
    PartitionsNext(m, s, path);
    StartsDecreaseNext(m, s, path);
    TagsCount(m, d.start, d.end - 1);
    HeldSplits(m, 1, d.start, d.end);
    assert ([s] + path)[1..] == path;
  }

  lemma {:induction false} WalkHasFacts(m: InSync, c: Crypto, s: nat, boundary: nat, expectedEnd: nat)
    requires WellFormedSegments(m) && UniqueTags(m) && s in m && m[s].content.Segment?
    requires BackboneFrom(m, c, s, boundary, [], expectedEnd)
    ensures WalkFacts(m, c, Walked(m, c, s, boundary, [], expectedEnd), m[s].content.end, boundary)
    decreases if expectedEnd == 0 then 1 else 0, expectedEnd
  {
    var d := m[s].content;
    if d.previousSegment == [] {
      assert Held(m, 1, 0) == {};
      assert WalkFacts(m, c, [], 1, boundary);
      WalkFactsNext(m, c, s, [], boundary);
    } else {
      WalkHasFacts(m, c, SegmentBefore(m, s).value, boundary, d.start);
      assert m[SegmentBefore(m, s).value].content.end == d.start by {
        BackboneEnd(m, c, SegmentBefore(m, s).value, boundary, d.start);
      }
      WalkFactsNext(m, c, s, Walked(m, c, SegmentBefore(m, s).value, boundary, [], d.start), boundary);
    }
  }

  /** continuity: a segment the walk goes on to ends where the one before it began */
  lemma BackboneEnd(m: InSync, c: Crypto, s: nat, boundary: nat, expectedEnd: nat)
    requires WellFormedSegments(m) && s in m && m[s].content.Segment? && expectedEnd > 0
    requires BackboneFrom(m, c, s, boundary, [], expectedEnd)
    ensures m[s].content.end == expectedEnd
  {
  }

  /** the segments a fast verification without an anchor walked */
  ghost function Backbone(m: InSync, c: Crypto, newest: nat): seq<nat>
    requires WellFormedSegments(m) && newest in m && m[newest].content.Segment?
    requires BackboneGood(m, c, [], newest)
  {
    Walked(m, c, newest, m[newest].content.end, [], 0)
  }

  /**
   * The path divides the history below the boundary, its segments are authentic and list it
   * record by record; from the boundary on the records are a linked authentic chain.
   */
  ghost predicate Vouched(m: InSync, c: Crypto, path: seq<nat>, boundary: nat) {
    && Partitions(m, path, boundary) && StartsDecrease(m, path)
    && (forall s :: s in path ==> s in m && Genuine(c, m[s], s))
    && (forall s :: s in m && s < boundary ==> NamedOnce(m, path, m[s].tag))
    && TailGood(m, c, boundary)
  }

  lemma FactsVouch(m: InSync, c: Crypto, path: seq<nat>, boundary: nat)
    requires UniqueTags(m) && WalkFacts(m, c, path, boundary, boundary) && TailGood(m, c, boundary)
    ensures Vouched(m, c, path, boundary)
  {
    forall s | s in path
      ensures s in m && Genuine(c, m[s], s)
    {
      assert s >= boundary ==> Link(m, c, boundary, m[boundary - 1].hash, s);
    }
    forall s | s in m && s < boundary
      ensures NamedOnce(m, path, m[s].tag)
    {
      PartitionNames(m, path, boundary, s);
    }
  }

  lemma FastVouches(m: InSync, c: Crypto, newest: nat)
    requires WellFormedSegments(m) && UniqueTags(m)
    requires NewestSegment(m) == Some(newest) && FastGood(m, c, [])
    ensures BackboneGood(m, c, [], newest) && Vouched(m, c, Backbone(m, c, newest), m[newest].content.end)
  {
    WalkHasFacts(m, c, newest, m[newest].content.end, 0);
    FactsVouch(m, c, Backbone(m, c, newest), m[newest].content.end);
  }

  lemma NamedIffCovered(m: InSync, seg: nat, s: nat)
    requires UniqueTags(m) && ListExact(m, seg) && s in m
    ensures Names(m, seg, m[s].tag) <==> Covers(m, seg, s)
  {
    TagsOfRange(m, m[seg].content.start, m[seg].content.end - 1);
  }

  lemma PartitionNames(m: InSync, path: seq<nat>, end: nat, s: nat)
    requires UniqueTags(m) && Partitions(m, path, end) && (forall g :: g in path ==> ListExact(m, g))
    requires s in m && s < end
    ensures NamedOnce(m, path, m[s].tag)
  {
    assert CoveredBy(m, path, s);
    forall j | 0 <= j < |path|
      ensures Names(m, path[j], m[s].tag) <==> Covers(m, path[j], s)
    {
      NamedIffCovered(m, path[j], s);
    }
  }

  /** a list names nothing but held records of the segment's own range */
  lemma NamesOnlyHeld(m: InSync, seg: nat, t: Tag)
    requires UniqueTags(m) && ListExact(m, seg) && Names(m, seg, t)
    ensures exists s :: s in m && Covers(m, seg, s) && m[s].tag == t
  {
    TagsOfRange(m, m[seg].content.start, m[seg].content.end - 1);
  }

  /** the counters of a fast verification without an anchor sum to the number of in sync records */
  lemma FastCountsAll(m: InSync, c: Crypto, newest: nat)
    requires WellFormedSegments(m) && UniqueTags(m)
    requires NewestSegment(m) == Some(newest) && FastGood(m, c, [])
    ensures BackboneSum(m, c, [], newest) == |m|
  {
    var boundary := m[newest].content.end;
    WalkHasFacts(m, c, newest, boundary, 0);
    HeldAll(m, boundary);
  }

  lemma HeldAll(m: InSync, boundary: nat)
    requires boundary > 0
    ensures |Held(m, 1, boundary - 1)| + |Held(m, boundary, Last(m))| == |m|
  {
    assert m.Keys == Held(m, 1, boundary - 1) + Held(m, boundary, Last(m));
    assert |m| == |m.Keys|;
  }
}
