/**
 * The history a strict mode client builds and cuts (spsync/engine/sync_engine.cpp): committed
 * records are appended, segments seal what came since the previous one, and a prune cuts the
 * history at a segment. Whatever run of these led there, both verifications succeed and count
 * every record that is left.
 */
module LocalHistory {
  import opened Common
  import opened Octets
  import opened RecordStorage
  import opened HistoryVerifier
  import opened HistoryGuarantees

  /** a hash is never empty, and injective: the block can be told from it */
  ghost predicate HashLaws(c: Crypto) {
    forall b :: c.hash(b) != [] && c.preimage(c.hash(b)) == b
  }

  // ---------------------------------------------------------------- the operations, on values

  function HeadHash(m: InSync, n: nat): Hash {
    if n in m then m[n].hash else []
  }

  /** a committed record goes on top of the newest one */
  ghost function Appended(m: InSync, c: Crypto, content: Content, tag: Tag): InSync {
    var n := Last(m);
    m[n + 1 := Row(content, tag, c.hash(Block(content, tag, n + 1, HeadHash(m, n))), HeadHash(m, n))]
  }

  /** what a segment on top of the newest record covers: from the end of the previous segment on */
  ghost function SegmentData(m: InSync, body: OctetVector): Content {
    var previous := NewestSegment(m);
    var start := if previous.Some? then m[previous.value].content.end else 1;
    Segment(start, Last(m) + 1, TagsInRange(m, start, Last(m)),
            if previous.Some? then m[previous.value].tag else [], body)
  }

  /** the history from the segment on, with what the objects depend on below it */
  ghost function Cut(m: InSync, p: nat): InSync {
    TruncatedInSync(m, p, set s | s in m && OnChainBelow(m, p, m[s].tag) :: m[s].tag)
  }

  ghost predicate Acceptable(m: InSync, c: Crypto, content: Content, tag: Tag) {
    c.hasKey(content) && c.authentic(content, tag) && tag != [] && forall s :: s in m ==> m[s].tag != tag
  }

  // ---------------------------------------------------------------- what they keep

  /** the trusted anchor: a block by its sequence and hash; an empty hash is no anchor */
  datatype BlockId = BlockId(sequence: nat, hash: Hash)

  const NoAnchor := BlockId(0, [])

  /** where the linked chain starts: at the anchor of a cut history, else at the first record */
  function ChainStart(anchor: BlockId): nat {
    if anchor.hash == [] then 1 else anchor.sequence
  }

  /** the segment s covers exactly what came since the segment it names, or since the first record */
  ghost predicate SealsSince(m: InSync, s: nat, first: nat)
    requires s in m && m[s].content.Segment?
  {
    var d := m[s].content;
    && 1 <= first <= d.start < s && d.end == s
    && d.start in m
    && d.tags == TagsInRange(m, d.start, s - 1)
    && if d.previousSegment == [] then d.start == 1
       else m[d.start].content.Segment? && m[d.start].tag == d.previousSegment
  }

  /** nothing is sealed twice: between a segment and the one it names there is no other */
  ghost predicate SealsNewest(m: InSync, s: nat)
    requires s in m && m[s].content.Segment?
  {
    && (forall t :: t in m && m[s].content.start < t < s ==> !m[t].content.Segment?)
    && (m[s].content.previousSegment == [] ==> 1 in m ==> !m[1].content.Segment?)
  }

  ghost predicate Chained(m: InSync, c: Crypto, anchor: BlockId) {
    if anchor.hash == [] then LinkedChain(m, c, 1, Last(m), [])
    else
      && anchor.sequence in m && m[anchor.sequence].hash == anchor.hash && m[anchor.sequence].content.Segment?
      && m[anchor.sequence].content.end == anchor.sequence && m[anchor.sequence].content.start >= 1
      && LinkedChain(m, c, anchor.sequence + 1, Last(m), anchor.hash)
  }

  /** the anchor is the oldest segment of a cut history; every other one seals since the one before */
  ghost predicate SegmentsGood(m: InSync, anchor: BlockId) {
    forall s :: s in m && m[s].content.Segment? && !(anchor.hash != [] && s == anchor.sequence) ==>
                  SealsSince(m, s, ChainStart(anchor)) && SealsNewest(m, s)
  }

  ghost predicate AllRecordsGood(m: InSync, c: Crypto) {
    forall s :: s in m ==> Genuine(c, m[s], s) && m[s].tag != []
  }

  ghost predicate Built(m: InSync, c: Crypto, anchor: BlockId) {
    UniqueTags(m) && AllRecordsGood(m, c) && Chained(m, c, anchor) && SegmentsGood(m, anchor)
  }

  lemma GenuineHashes(m: InSync, c: Crypto)
    requires HashLaws(c) && AllRecordsGood(m, c)
    ensures UniqueHashes(m)
  {
    forall s, t | s in m && t in m && m[s].hash == m[t].hash
      ensures s == t
    {
      assert CommittedBlock(m[s], s) == CommittedBlock(m[t], t);
    }
  }

  // ---------------------------------------------------------------- verification of a built history

  /** a segment that is not the anchor: it covers what came since the one it names */
  lemma SealCounts(m: InSync, s: nat, first: nat)
    requires s in m && m[s].content.Segment? && SealsSince(m, s, first)
    ensures CoverageGood(m, m[s].content, 0) && CoverageGood(m, m[s].content, s)
    ensures var p := m[s].content.start;
            && |m[s].content.tags| >= 1
            && |Held(m, first, s - 1)| == |m[s].content.tags| + |Held(m, first, p - 1)|
  {
    var p := m[s].content.start;
    TagsCount(m, p, s - 1);
    assert p in Held(m, p, s - 1);
    HeldSplits(m, first, p, s);
  }

  lemma SealNames(m: InSync, s: nat, first: nat)
    requires UniqueTags(m) && s in m && m[s].content.Segment? && SealsSince(m, s, first)
    ensures m[s].content.previousSegment != [] ==> SegmentBefore(m, s) == Some(m[s].content.start)
  {
  }

  /** the facts about a walk that counting needs, for a path that starts at s */
  ghost predicate PathCounts(m: InSync, path: seq<nat>, s: nat, boundary: nat, anchor: BlockId) {
    && s > 0
    && ListedCount(m, path, anchor.hash) == |Held(m, ChainStart(anchor), s - 1)|
    && AuthenticatedCount(path, boundary) <= ListedCount(m, path, anchor.hash) + if s < boundary then 1 else 0
  }

  lemma PathCountsOne(m: InSync, s: nat, boundary: nat, anchor: BlockId)
    requires s in m && m[s].content.Segment?
    requires if EndsAtAnchor(m, s, anchor.hash) then s == ChainStart(anchor)
             else SealsSince(m, s, ChainStart(anchor)) && m[s].content.start == 1
    ensures PathCounts(m, [s], s, boundary, anchor)
  {
    assert [s][1..] == [];
    if EndsAtAnchor(m, s, anchor.hash) {
      assert Held(m, s, s - 1) == {};
    } else {
      SealCounts(m, s, ChainStart(anchor));
      assert Held(m, ChainStart(anchor), 0) == {};
    }
  }

  lemma PathCountsNext(m: InSync, path: seq<nat>, s: nat, boundary: nat, anchor: BlockId)
    requires s in m && m[s].content.Segment? && SealsSince(m, s, ChainStart(anchor))
    requires !EndsAtAnchor(m, s, anchor.hash)
    requires PathCounts(m, path, m[s].content.start, boundary, anchor)
    ensures PathCounts(m, [s] + path, s, boundary, anchor)
  {
    SealCounts(m, s, ChainStart(anchor));
    assert ([s] + path)[1..] == path;
  }

  /** the backbone of a built history, from any of its segments */
  lemma {:induction false} BuiltBackbone(m: InSync, c: Crypto, anchor: BlockId, s: nat, boundary: nat, expectedEnd: nat)
    requires Built(m, c, anchor) && UniqueHashes(m) && WellFormedSegments(m)
    requires s in m && m[s].content.Segment? && (expectedEnd == 0 || expectedEnd == s)
    ensures BackboneFrom(m, c, s, boundary, anchor.hash, expectedEnd)
    ensures PathCounts(m, Walked(m, c, s, boundary, anchor.hash, expectedEnd), s, boundary, anchor)
    decreases s
  {
    var p := m[s].content.start;
    if EndsAtAnchor(m, s, anchor.hash) {
      PathCountsOne(m, s, boundary, anchor);
    } else {
      SealCounts(m, s, ChainStart(anchor));
      if m[s].content.previousSegment == [] {
        PathCountsOne(m, s, boundary, anchor);
      } else {
        SealNames(m, s, ChainStart(anchor));
        BuiltBackbone(m, c, anchor, p, boundary, p);
        PathCountsNext(m, Walked(m, c, p, boundary, anchor.hash, p), s, boundary, anchor);
      }
    }
  }

  /** no gaps from the chain start on, and each record links to the one before */
  lemma ChainedAt(m: InSync, c: Crypto, anchor: BlockId, s: nat)
    requires Chained(m, c, anchor) && ChainStart(anchor) <= s <= Last(m)
    ensures s in m
    ensures ChainStart(anchor) < s ==> s - 1 in m && m[s].parent == m[s - 1].hash
  {
    if anchor.hash == [] {
      assert Link(m, c, 1, [], s);
      assert s > 1 ==> Link(m, c, 1, [], s - 1);
    } else if s > anchor.sequence {
      assert Link(m, c, anchor.sequence + 1, anchor.hash, s);
      assert s > anchor.sequence + 1 ==> Link(m, c, anchor.sequence + 1, anchor.hash, s - 1);
    }
  }

  lemma BuiltTail(m: InSync, c: Crypto, anchor: BlockId, b: nat)
    requires Chained(m, c, anchor) && AllRecordsGood(m, c) && ChainStart(anchor) < b <= Last(m)
    ensures TailGood(m, c, b)
  {
    ChainedAt(m, c, anchor, b);
    var before := m[b - 1].hash;
    forall s: nat | b <= s <= Last(m)
      ensures Link(m, c, b, before, s)
    {
      ChainedAt(m, c, anchor, s);
    }
  }

  /** what fast verification counts of a history it succeeds on */
  ghost function FastSum(m: InSync, c: Crypto, anchor: Hash): int
    requires WellFormedSegments(m) && FastGood(m, c, anchor)
  {
    var newest := NewestSegment(m);
    if newest.None? || EndsAtAnchor(m, newest.value, anchor) then |m| else BackboneSum(m, c, anchor, newest.value)
  }

  lemma HeldInThree(m: InSync, a: nat, b: nat)
    requires 1 <= a < b
    ensures |Held(m, 1, a - 1)| + |Held(m, a, b - 1)| + |Held(m, b, Last(m))| == |m|
  {
    assert m.Keys == Held(m, 1, a - 1) + Held(m, a, b - 1) + Held(m, b, Last(m));
    assert |m| == |m.Keys|;
  }

  lemma BuiltBackboneVerifies(m: InSync, c: Crypto, anchor: BlockId, n: nat)
    requires Built(m, c, anchor) && UniqueHashes(m) && WellFormedSegments(m)
    requires n in m && m[n].content.Segment? && !EndsAtAnchor(m, n, anchor.hash)
    ensures m[n].content.end == n && ChainStart(anchor) < n
    ensures BackboneGood(m, c, anchor.hash, n)
    ensures PathCounts(m, Walked(m, c, n, n, anchor.hash, 0), n, n, anchor)
    ensures anchor.hash != [] ==> HashAt(m, anchor.hash) == Some(ChainStart(anchor))
  {
    assert SealsSince(m, n, ChainStart(anchor));
    BuiltTail(m, c, anchor, n);
    BuiltBackbone(m, c, anchor, n, n, 0);
    assert anchor.hash != [] ==> HashAt(m, anchor.hash) == Some(anchor.sequence);
  }

  /** the retained records, those listed since the anchor and the tail are all there is */
  lemma BackboneSumIsAll(m: InSync, c: Crypto, anchor: BlockId, n: nat)
    requires WellFormedSegments(m) && n in m && m[n].content.Segment? && m[n].content.end == n
    requires BackboneGood(m, c, anchor.hash, n) && PathCounts(m, Walked(m, c, n, n, anchor.hash, 0), n, n, anchor)
    requires 1 <= ChainStart(anchor) < n
    requires anchor.hash != [] ==> HashAt(m, anchor.hash) == Some(ChainStart(anchor))
    ensures BackboneSum(m, c, anchor.hash, n) == |m|
  {
    var first := ChainStart(anchor);
    HeldInThree(m, first, n);
    var below := if anchor.hash == [] then 0 else |Held(m, 1, first - 1)|;
    assert below == |Held(m, 1, first - 1)| by {
      if anchor.hash == [] {
        assert Held(m, 1, first - 1) == {};
      }
    }
    assert BackboneSum(m, c, anchor.hash, n) ==
           below + |Held(m, n, Last(m))| + ListedCount(m, Walked(m, c, n, n, anchor.hash, 0), anchor.hash);
  }

  /** both verifications succeed on a built history, and the counters sum to its in sync records */
  lemma BuiltVerifies(m: InSync, c: Crypto, anchor: BlockId)
    requires HashLaws(c) && Built(m, c, anchor)
    ensures UniqueHashes(m) && WellFormedSegments(m)
    ensures FullGood(m, c, anchor.hash)
    ensures FastGood(m, c, anchor.hash) && FastSum(m, c, anchor.hash) == |m|
  {
    GenuineHashes(m, c);
    BuiltFull(m, c, anchor);
    BuiltFast(m, c, anchor);
  }

  lemma BuiltFull(m: InSync, c: Crypto, anchor: BlockId)
    requires Built(m, c, anchor) && UniqueHashes(m)
    ensures FullGood(m, c, anchor.hash) && (anchor.hash != [] ==> FromAnchorGood(m, c, anchor.hash))
    ensures WellFormedSegments(m)
  {
    assert anchor.hash != [] ==> HashAt(m, anchor.hash) == Some(anchor.sequence);
  }

  lemma BuiltFast(m: InSync, c: Crypto, anchor: BlockId)
    requires Built(m, c, anchor) && UniqueHashes(m) && WellFormedSegments(m)
    ensures FastGood(m, c, anchor.hash) && FastSum(m, c, anchor.hash) == |m|
  {
    BuiltFull(m, c, anchor);
    var newest := NewestSegment(m);
    if newest.Some? && !EndsAtAnchor(m, newest.value, anchor.hash) {
      BuiltBackboneVerifies(m, c, anchor, newest.value);
      assert SealsSince(m, newest.value, ChainStart(anchor));
      BackboneSumIsAll(m, c, anchor, newest.value);
    }
  }
}
