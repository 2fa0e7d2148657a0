/**
 * Runs of the client's own operations on its history: append a committed record, seal a
 * segment, prune at a segment (spsync/engine/sync_engine.cpp, spsync/core/record_storage.cpp).
 */
module HistoryRuns {
  import opened Common
  import opened Octets
  import opened RecordStorage
  import opened HistoryVerifier
  import opened LocalHistory
  import ObjectHistory

  // ---------------------------------------------------------------- each operation keeps the history built

  lemma {:induction false} TagsSame(m: InSync, m': InSync, first: nat, last: nat)
    requires forall s :: first <= s <= last ==> (s in m <==> s in m') && (s in m ==> m'[s] == m[s])
    ensures TagsInRange(m', first, last) == TagsInRange(m, first, last)
  {
    if first <= last && last != 0 {
      TagsSame(m, m', first, last - 1);
    }
  }

  lemma SealKept(m: InSync, m': InSync, s: nat, first: nat, first': nat)
    requires s in m && m[s].content.Segment? && SealsSince(m, s, first)
    requires 1 <= first' <= m[s].content.start
    requires forall t :: first' <= t <= s ==> (t in m <==> t in m') && (t in m ==> m'[t] == m[t])
    ensures s in m' && m'[s] == m[s] && SealsSince(m', s, first')
  {
    TagsSame(m, m', m[s].content.start, s - 1);
  }

  /** the segment numbers itself: a segment of a built history ends at its own sequence */
  lemma SegmentEnds(m: InSync, c: Crypto, anchor: BlockId, s: nat)
    requires Built(m, c, anchor) && s in m && m[s].content.Segment?
    ensures m[s].content.end == s && ChainStart(anchor) <= s
  {
  }

  lemma AppendedLast(m: InSync, c: Crypto, content: Content, tag: Tag)
    ensures Last(Appended(m, c, content, tag)) == Last(m) + 1
  {
    assert Last(m) + 1 in Appended(m, c, content, tag);
  }

  lemma AppendChains(m: InSync, c: Crypto, anchor: BlockId, content: Content, tag: Tag)
    requires Chained(m, c, anchor) && Acceptable(m, c, content, tag)
    ensures Chained(Appended(m, c, content, tag), c, anchor)
  {
    var m', n := Appended(m, c, content, tag), Last(m);
    AppendedLast(m, c, content, tag);
    var first, parent := if anchor.hash == [] then 1 else anchor.sequence + 1, anchor.hash;
    assert anchor.hash == [] ==> parent == [];
    forall s: nat | first <= s <= n + 1
      ensures Link(m', c, first, parent, s)
    {
      if s <= n {
        assert Link(m, c, first, parent, s);
      }
      if first < s {
        assert Link(m, c, first, parent, s - 1);
      }
    }
  }

  /** a segment made on top of a built history seals what came since the one before */
  lemma NewSealGood(m: InSync, c: Crypto, anchor: BlockId, body: OctetVector, tag: Tag)
    requires Built(m, c, anchor) && Last(m) >= 1
    ensures var m', s := Appended(m, c, SegmentData(m, body), tag), Last(m) + 1;
            s in m' && m'[s].content.Segment? && SealsSince(m', s, ChainStart(anchor)) && SealsNewest(m', s)
  {
    var n := Last(m);
    var d, m' := SegmentData(m, body), Appended(m, c, SegmentData(m, body), tag);
    var previous := NewestSegment(m);
    if previous.Some? {
      SegmentEnds(m, c, anchor, previous.value);
    } else {
      NoSegments(m);
      assert Link(m, c, 1, [], 1);
    }
    TagsSame(m, m', d.start, n);
  }

  lemma NoSegments(m: InSync)
    requires NewestSegment(m).None?
    ensures forall s :: s in m ==> !m[s].content.Segment?
  {
    if s :| s in m && m[s].content.Segment? {
      NewestExists(m, s);
    }
  }

  lemma NewestExists(m: InSync, s: nat)
    requires s in m && m[s].content.Segment?
    ensures exists n :: IsNewestSegment(m, n)
  {
    var n, t := s, s;
    while t < Last(m)
      invariant n in m && m[n].content.Segment? && s <= t
      invariant forall k :: k in m && k <= t && m[k].content.Segment? ==> k <= n
    {
      t := t + 1;
      if t in m && m[t].content.Segment? {
        n := t;
      }
    }
    assert IsNewestSegment(m, n);
  }

  lemma AppendKeeps(m: InSync, c: Crypto, anchor: BlockId, content: Content, tag: Tag)
    requires Built(m, c, anchor) && Acceptable(m, c, content, tag)
    requires content.Segment? ==> Last(m) >= 1 && exists body :: content == SegmentData(m, body)
    ensures Built(Appended(m, c, content, tag), c, anchor)
  {
    var m' := Appended(m, c, content, tag);
    AppendChains(m, c, anchor, content, tag);
    forall s | s in m' && m'[s].content.Segment? && !(anchor.hash != [] && s == anchor.sequence)
      ensures SealsSince(m', s, ChainStart(anchor)) && SealsNewest(m', s)
    {
      if s in m {
        SealKept(m, m', s, ChainStart(anchor), ChainStart(anchor));
        assert SealsNewest(m, s);
      } else {
        var body :| content == SegmentData(m, body);
        NewSealGood(m, c, anchor, body, tag);
      }
    }
  }

  // ---------------------------------------------------------------- the cut

  /** m' is m from p on, with some of what is below */
  ghost predicate KeepsFrom(m: InSync, m': InSync, p: nat) {
    && (forall s :: s in m' ==> s in m && m'[s] == m[s])
    && (forall s :: s in m && p <= s ==> s in m')
  }

  lemma CutKeepsFrom(m: InSync, p: nat)
    ensures KeepsFrom(m, Cut(m, p), p)
  {
  }

  lemma KeptLast(m: InSync, m': InSync, p: nat)
    requires KeepsFrom(m, m', p) && p in m
    ensures Last(m') == Last(m)
  {
  }

  /** what a cut keeps below the segment changes objects: it is no segment */
  lemma CutKeepsNoSegment(m: InSync, p: nat, s: nat)
    requires UniqueTags(m) && s in Cut(m, p) && s < p
    ensures m[s].content.DataChange?
  {
    assert OnChainBelow(m, p, m[s].tag);
    var oid :| ObjectChainBelow(m, oid, p, m[s].tag);
    var v :| v in Versions(m, oid) && v.at < p && v.tag == m[s].tag;
    VersionsProperties(m, oid);
  }

  lemma KeptChains(m: InSync, m': InSync, c: Crypto, anchor: BlockId, p: nat)
    requires Chained(m, c, anchor) && AllRecordsGood(m, c) && p in m && ChainStart(anchor) <= p
    requires KeepsFrom(m, m', p)
    ensures LinkedChain(m', c, p + 1, Last(m'), m[p].hash)
  {
    KeptLast(m, m', p);
    var h, first := m[p].hash, p + 1;
    forall s: nat | first <= s <= Last(m)
      ensures Link(m', c, first, h, s)
    {
      ChainedAt(m, c, anchor, s);
    }
  }

  lemma KeptSeals(m: InSync, m': InSync, first: nat, p: nat, s: nat)
    requires KeepsFrom(m, m', p) && p in m && m[p].content.Segment? && first <= p
    requires s in m && m[s].content.Segment? && p < s && SealsSince(m, s, first) && SealsNewest(m, s)
    ensures s in m' && m'[s] == m[s] && SealsSince(m', s, p) && SealsNewest(m', s)
  {
    assert p <= m[s].content.start;
    SealKept(m, m', s, first, p);
  }

  lemma CutKeeps(m: InSync, c: Crypto, anchor: BlockId, p: nat)
    requires HashLaws(c) && Built(m, c, anchor) && p in m && m[p].content.Segment?
    ensures Built(Cut(m, p), c, BlockId(p, m[p].hash))
  {
    var m' := Cut(m, p);
    CutKeepsFrom(m, p);
    forall s | s in m' && s < p
      ensures !m[s].content.Segment?
    {
      CutKeepsNoSegment(m, p, s);
    }
    HashNotEmpty(c, m[p], p);
    KeptBuilt(m, m', c, anchor, p);
  }

  lemma KeptSegments(m: InSync, m': InSync, anchor: BlockId, p: nat)
    requires SegmentsGood(m, anchor) && p in m && m[p].content.Segment? && ChainStart(anchor) <= p && m[p].hash != []
    requires KeepsFrom(m, m', p) && forall s :: s in m' && s < p ==> !m[s].content.Segment?
    ensures SegmentsGood(m', BlockId(p, m[p].hash))
  {
    forall s | s in m' && m'[s].content.Segment? && s != p
      ensures SealsSince(m', s, p) && SealsNewest(m', s)
    {
      KeptSeals(m, m', ChainStart(anchor), p, s);
    }
  }

  /** a history cut at a segment, with no segment kept below it, is built on that segment */
  lemma KeptBuilt(m: InSync, m': InSync, c: Crypto, anchor: BlockId, p: nat)
    requires Built(m, c, anchor) && p in m && m[p].content.Segment? && m[p].hash != []
    requires KeepsFrom(m, m', p) && forall s :: s in m' && s < p ==> !m[s].content.Segment?
    ensures Built(m', c, BlockId(p, m[p].hash))
  {
    SegmentEnds(m, c, anchor, p);
    KeptChained(m, m', c, anchor, p);
    KeptSegments(m, m', anchor, p);
  }

  lemma KeptChained(m: InSync, m': InSync, c: Crypto, anchor: BlockId, p: nat)
    requires Built(m, c, anchor) && KeepsFrom(m, m', p)
    requires p in m && m[p].hash != [] && m[p].content.Segment? && ChainStart(anchor) <= p && m[p].content.end == p
    ensures Chained(m', c, BlockId(p, m[p].hash))
  {
    KeptChains(m, m', c, anchor, p);
    assert m[p].content.start >= 1;
  }

  lemma HashNotEmpty(c: Crypto, row: Row, s: nat)
    requires HashLaws(c) && HashMatches(c, row, s)
    ensures row.hash != []
  {
  }

  // ---------------------------------------------------------------- runs

  datatype History = History(records: InSync, anchor: BlockId)

  const EmptyHistory := History(map[], NoAnchor)

  ghost predicate Appends(h: History, h': History, c: Crypto) {
    && h'.anchor == h.anchor
    && exists content, tag :: Acceptable(h.records, c, content, tag) && !content.Segment? &&
                              h'.records == Appended(h.records, c, content, tag)
  }

  ghost predicate Seals(h: History, h': History, c: Crypto) {
    && h'.anchor == h.anchor && Last(h.records) >= 1
    && exists body, tag :: Acceptable(h.records, c, SegmentData(h.records, body), tag) &&
                           h'.records == Appended(h.records, c, SegmentData(h.records, body), tag)
  }

  ghost predicate Prunes(h: History, h': History) {
    exists p :: p in h.records && h.records[p].content.Segment? &&
                h' == History(Cut(h.records, p), BlockId(p, h.records[p].hash))
  }

  ghost predicate Steps(h: History, h': History, c: Crypto) {
    Appends(h, h', c) || Seals(h, h', c) || Prunes(h, h')
  }

  ghost predicate IsRun(run: seq<History>, c: Crypto) {
    && run != [] && run[0] == EmptyHistory
    && forall i :: 0 <= i < |run| - 1 ==> Steps(run[i], run[i + 1], c)
  }

  lemma StepKeeps(h: History, h': History, c: Crypto)
    requires HashLaws(c) && Built(h.records, c, h.anchor) && Steps(h, h', c)
    ensures Built(h'.records, c, h'.anchor)
  {
    if Appends(h, h', c) {
      var content, tag :| Acceptable(h.records, c, content, tag) && !content.Segment? &&
                          h'.records == Appended(h.records, c, content, tag);
      AppendKeeps(h.records, c, h.anchor, content, tag);
    } else if Seals(h, h', c) {
      var body, tag :| Acceptable(h.records, c, SegmentData(h.records, body), tag) &&
                       h'.records == Appended(h.records, c, SegmentData(h.records, body), tag);
      AppendKeeps(h.records, c, h.anchor, SegmentData(h.records, body), tag);
    } else {
      var p :| p in h.records && h.records[p].content.Segment? &&
               h' == History(Cut(h.records, p), BlockId(p, h.records[p].hash));
      CutKeeps(h.records, c, h.anchor, p);
    }
  }

  lemma {:induction false} RunBuilt(run: seq<History>, c: Crypto)
    requires HashLaws(c) && IsRun(run, c)
    ensures var h := run[|run| - 1]; Built(h.records, c, h.anchor)
  {
    var n := |run| - 1;
    if n > 0 {
      assert IsRun(run[..n], c);
      RunBuilt(run[..n], c);
      StepKeeps(run[n - 1], run[n], c);
    }
  }

  /** after every run both verifications succeed under the run's anchor and count every record left */
  lemma RunVerifies(run: seq<History>, c: Crypto)
    requires HashLaws(c) && IsRun(run, c)
    ensures var h := run[|run| - 1];
            && UniqueTags(h.records) && UniqueHashes(h.records) && WellFormedSegments(h.records)
            && FullGood(h.records, c, h.anchor.hash)
            && FastGood(h.records, c, h.anchor.hash) && FastSum(h.records, c, h.anchor.hash) == |h.records|
  {
    RunBuilt(run, c);
    var h := run[|run| - 1];
    BuiltVerifies(h.records, c, h.anchor);
  }

  // ---------------------------------------------------------------- the client

  /** the segment a prune is asked for: by its tag, or the newest one */
  ghost predicate PruneTarget(m: InSync, segmentTag: Tag, p: nat) {
    && p in m && m[p].content.Segment?
    && if segmentTag == [] then NewestSegment(m) == Some(p) else m[p].tag == segmentTag
  }

  /** every object has the same versions in both */
  ghost predicate SameVersions(m: InSync, m': InSync) {
    forall oid :: Versions(m', oid) == Versions(m, oid)
  }

  /** of the rows that are not in sync, the server sequenced ones below the cut went, unless an object needs them */
  ghost predicate OthersCut(m: InSync, os: seq<OtherRow>, os': seq<OtherRow>, p: nat) {
    forall o :: o in os' <==> o in os && !(o.at < p && (o.state == Acked || o.state == PendingSync) &&
                                           !OnChainBelow(m, p, o.row.tag))
  }

  method AppendRow(m: InSync, c: Crypto, content: Content, tag: Tag) returns (m': InSync)
    ensures m' == Appended(m, c, content, tag)
  {
    var n := LastSequence(m);
    var parent := HeadHash(m, n);
    m' := m[n + 1 := Row(content, tag, c.hash(Block(content, tag, n + 1, parent)), parent)];
  }

  method FindPruneTarget(m: InSync, segmentTag: Tag) returns (p: Option<nat>)
    requires UniqueTags(m)
    ensures p.Some? ==> PruneTarget(m, segmentTag, p.value)
    ensures p.None? ==> forall q :: !PruneTarget(m, segmentTag, q)
  {
    if segmentTag == [] {
      p := FindNewestSegment(m);
    } else {
      p := FindByTag(m, segmentTag);
      if p.Some? && !m[p.value].content.Segment? {
        p := None;
      }
    }
  }

  method TruncatePrefix(m: InSync, os: seq<OtherRow>, p: nat) returns (m': InSync, os': seq<OtherRow>)
    requires UniqueTags(m)
    ensures m' == Cut(m, p) && SameVersions(m, m') && OthersCut(m, os, os', p)
    ensures ObjectHistory.KeepsReached(m, m', p)
  {
    var retained := ObjectChainTagsBelow(m, p);
    var keep := set t | t in retained;
    m' := TruncatedInSync(m, p, keep);
    os' := TruncatedOthers(os, p, keep);
    CutVersions(m, p, keep);
    OthersLeft(os, p, keep);
    ObjectHistory.CutKeepsReached(m, p);
  }

  class Client {
    const crypto: Crypto
    var inSync: InSync
    var others: seq<OtherRow>
    var anchor: BlockId

    ghost predicate Valid()
      reads this
    {
      HashLaws(crypto) && Built(inSync, crypto, anchor)
    }

    constructor (crypto: Crypto)
      requires HashLaws(crypto)
      ensures Valid() && inSync == map[] && others == [] && anchor == NoAnchor && this.crypto == crypto
    {
      this.crypto := crypto;
      inSync, others, anchor := map[], [], NoAnchor;
    }

    method MakeSegmentData(body: OctetVector) returns (data: Content)
      ensures data == SegmentData(inSync, body)
    {
      var base := LastSequence(inSync);
      var previous := FindNewestSegment(inSync);
      var start, previousTag := 1, [];
      if previous.Some? {
        start, previousTag := inSync[previous.value].content.end, inSync[previous.value].tag;
      }
      data := Segment(start, base + 1, TagsInRange(inSync, start, base), previousTag, body);
    }

    /** a segment needs something to seal, and every local change committed */
    method SyncSegmentEnd(body: OctetVector) returns (r: Result<Content>)
      ensures r.Ok? <==> Last(inSync) >= 1 && forall o :: o in others ==> o.state != PendingCommit
      ensures r.Ok? ==> r.value == SegmentData(inSync, body)
    {
      var base := LastSequence(inSync);
      var pending := exists i :: 0 <= i < |others| && others[i].state == PendingCommit;
      if base == 0 || pending {
        return Err(InvalidChainState);
      }
      var data := MakeSegmentData(body);
      return Ok(data);
    }

    /** the server confirmed a record on top of the newest one */
    method Commit(content: Content, tag: Tag)
      requires Valid() && Acceptable(inSync, crypto, content, tag)
      requires content.Segment? ==> Last(inSync) >= 1 && exists body :: content == SegmentData(inSync, body)
      modifies this
      ensures Valid() && others == old(others) && anchor == old(anchor)
      ensures inSync == Appended(old(inSync), crypto, content, tag)
    {
      AppendKeeps(inSync, crypto, anchor, content, tag);
      inSync := AppendRow(inSync, crypto, content, tag);
    }

    /** cut the history at a segment: the anchor moves there, no object loses a version */
    method PruneHistory(segmentTag: Tag) returns (r: Result<BlockId>)
      requires Valid()
      modifies this
      ensures Valid()
      ensures r.Err? ==> inSync == old(inSync) && others == old(others) && anchor == old(anchor)
      ensures r.Err? <==> forall p :: !PruneTarget(old(inSync), segmentTag, p)
      ensures r.Ok? ==>
                && PruneTarget(old(inSync), segmentTag, r.value.sequence)
                && anchor == r.value && anchor.hash == old(inSync)[anchor.sequence].hash
                && inSync == Cut(old(inSync), anchor.sequence)
                && SameVersions(old(inSync), inSync)
                && ObjectHistory.KeepsReached(old(inSync), inSync, anchor.sequence)
                && OthersCut(old(inSync), old(others), others, anchor.sequence)
    {
      var segment := FindPruneTarget(inSync, segmentTag);
      if segment.None? {
        return Err(ConstraintViolation);
      }
      var p := segment.value;
      CutKeeps(inSync, crypto, anchor, p);
      anchor := BlockId(p, inSync[p].hash);
      inSync, others := TruncatePrefix(inSync, others, p);
      return Ok(anchor);
    }

    /** verification of a history this client built never fails, and counts what it holds */
    method VerifyHistory(full: bool) returns (r: Result<Report>)
      requires Valid()
      ensures r.Ok? && r.value.Sum() == |inSync|
    {
      BuiltVerifies(inSync, crypto, anchor);
      if full {
        r := FullVerify(inSync, crypto, anchor.hash);
      } else {
        r := FastVerify(inSync, crypto, anchor.hash);
      }
    }
  }

  lemma CutVersions(m: InSync, p: nat, keep: set<Tag>)
    requires UniqueTags(m) && forall t :: t in keep <==> OnChainBelow(m, p, t)
    ensures TruncatedInSync(m, p, keep) == Cut(m, p)
    ensures SameVersions(m, Cut(m, p))
  {
    forall oid
      ensures Versions(TruncatedInSync(m, p, keep), oid) == Versions(m, oid)
    {
      CutKeepsVersions(m, p, keep, oid);
    }
  }

  lemma {:induction false} OthersLeft(os: seq<OtherRow>, p: nat, keep: set<Tag>)
    ensures forall o :: o in TruncatedOthers(os, p, keep) <==> o in os && !Truncates(o, p, keep)
  {
    if os != [] {
      OthersLeft(os[1..], p, keep);
    }
  }
}
