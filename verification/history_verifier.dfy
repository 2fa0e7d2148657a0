/**
 * Verification of the stored in sync history, in full or along the segment backbone
 * (spsync/engine/history_verifier.cpp). The loops are proved against declarative
 * conditions: what verification accepts, and nothing else.
 */
module HistoryVerifier {
  import opened Common
  import opened RecordStorage

  /** a block as it is hashed: the record with its server assigned sequence and parent */
  datatype Block = Block(content: Content, tag: Tag, sequence: nat, parent: Hash)

  /** hashing with its inverse, and record authentication, uninterpreted */
  datatype Crypto = Crypto(hash: Block -> Hash, preimage: Hash -> Block,
                           hasKey: Content -> bool, authentic: (Content, Tag) -> bool)

  datatype Error = InvalidChainState | NotAuthentic | NoKey | ConstraintViolation

  /** verified records, verified segments and records vouched for by a segment's list */
  datatype Report = Report(records: nat, segments: nat, covered: int) {
    function Sum(): int {
      records + segments + covered
    }
  }

  datatype Result<+T> = Ok(value: T) | Err(error: Error)

  // ---------------------------------------------------------------- what is checked

  function CommittedBlock(row: Row, s: nat): Block {
    Block(row.content, row.tag, s, row.parent)
  }

  predicate HashMatches(c: Crypto, row: Row, s: nat) {
    c.hash(CommittedBlock(row, s)) == row.hash
  }

  /** the stored hash is the content's and the record authenticates */
  predicate Genuine(c: Crypto, row: Row, s: nat) {
    HashMatches(c, row, s) && c.hasKey(row.content) && c.authentic(row.content, row.tag)
  }

  /** every sequence of the range is held, genuine and names the hash of the one before */
  ghost predicate LinkedChain(m: InSync, c: Crypto, first: nat, last: nat, parent: Hash) {
    forall s :: first <= s <= last ==> Link(m, c, first, parent, s)
  }

  ghost predicate Link(m: InSync, c: Crypto, first: nat, parent: Hash, s: nat) {
    s in m && Genuine(c, m[s], s) && m[s].parent == HashBefore(m, first, parent, s)
  }

  function HashBefore(m: InSync, first: nat, parent: Hash, s: nat): Hash {
    if s <= first then parent else if s - 1 in m then m[s - 1].hash else []
  }

  ghost predicate AllGenuine(m: InSync, c: Crypto, first: nat, last: nat) {
    forall s :: s in m && first <= s <= last ==> Genuine(c, m[s], s)
  }

  /** the held records of a range */
  function Held(m: InSync, first: nat, last: nat): set<nat> {
    set s | s in m && first <= s <= last
  }

  function HeldSegments(m: InSync, first: nat, last: nat): set<nat> {
    set s | s in m && first <= s <= last && m[s].content.Segment?
  }

  function Counted(m: InSync, first: nat, last: nat, r: Report): Report {
    SubsetSize(HeldSegments(m, first, last), Held(m, first, last));
    Report(r.records + |Held(m, first, last)| - |HeldSegments(m, first, last)|,
           r.segments + |HeldSegments(m, first, last)|, r.covered)
  }

  lemma HeldNext(m: InSync, first: nat, last: nat)
    requires first <= last && last > 0
    ensures |Held(m, first, last)| == |Held(m, first, last - 1)| + if last in m then 1 else 0
  {
    assert Held(m, first, last) == Held(m, first, last - 1) + if last in m then {last} else {};
  }

  lemma HeldSegmentsNext(m: InSync, first: nat, last: nat)
    requires first <= last && last > 0
    ensures |HeldSegments(m, first, last)| ==
            |HeldSegments(m, first, last - 1)| + if last in m && m[last].content.Segment? then 1 else 0
  {
    assert HeldSegments(m, first, last) ==
           HeldSegments(m, first, last - 1) + if last in m && m[last].content.Segment? then {last} else {};
  }

  lemma CountedNext(m: InSync, first: nat, last: nat, r: Report)
    requires first <= last
    ensures last !in m ==> Counted(m, first, last, r) == if last == 0 then r else Counted(m, first, last - 1, r)
    ensures last in m ==>
              var before := if last == 0 then r else Counted(m, first, last - 1, r);
              Counted(m, first, last, r) == if m[last].content.Segment? then before.(segments := before.segments + 1)
                                            else before.(records := before.records + 1)
  {
    if last > 0 {
      HeldNext(m, first, last);
      HeldSegmentsNext(m, first, last);
    } else {
      assert Held(m, first, last) == {} && HeldSegments(m, first, last) == {};
    }
  }

  // ---------------------------------------------------------------- single records and ranges

  method VerifyRecord(c: Crypto, row: Row, report: Report) returns (err: Option<Error>, report': Report)
    ensures err.None? <==> c.hasKey(row.content) && c.authentic(row.content, row.tag)
    ensures err.None? ==> report' == if row.content.Segment? then report.(segments := report.segments + 1)
                                     else report.(records := report.records + 1)
  {
    err, report' := None, report;
    if !c.hasKey(row.content) {
      err := Some(NoKey);
    } else if !c.authentic(row.content, row.tag) {
      err := Some(NotAuthentic);
    } else if row.content.Segment? {
      report' := report.(segments := report.segments + 1);
    } else {
      report' := report.(records := report.records + 1);
    }
  }

  lemma NothingCounted(m: InSync, first: nat, last: nat, r: Report)
    requires last < first
    ensures Counted(m, first, last, r) == r
  {
    assert Held(m, first, last) == {} && HeldSegments(m, first, last) == {};
  }

  method VerifyRange(m: InSync, c: Crypto, first: nat, last: nat, parent: Hash, report: Report)
    returns (err: Option<Error>, report': Report)
    requires first >= 1
    ensures err.None? <==> LinkedChain(m, c, first, last, parent)
    ensures err.None? ==> report' == Counted(m, first, last, report)
  {
    err, report' := None, report;
    var expected, s := parent, first;
    NothingCounted(m, first, first - 1, report);
    while err.None? && s <= last
      invariant first <= s && (s == first || s <= last + 1)
      invariant err.None? ==> LinkedChain(m, c, first, s - 1, parent)
      invariant err.None? ==> report' == Counted(m, first, s - 1, report)
      invariant err.None? ==> expected == HashBefore(m, first, parent, s)
      invariant err.Some? ==> exists t :: first <= t <= last && !Link(m, c, first, parent, t)
      decreases last + 1 - s, err.None?
    {
      err, report' := VerifyLink(m, c, s, expected, report');
      assert err.None? <==> Link(m, c, first, parent, s);
      if err.None? {
        CountedNext(m, first, s, report);
        expected := m[s].hash;
        s := s + 1;
      }
    }
    if last < first {
      NothingCounted(m, first, last, report);
    }
  }

  method VerifyLink(m: InSync, c: Crypto, s: nat, parent: Hash, report: Report)
    returns (err: Option<Error>, report': Report)
    ensures err.None? <==> s in m && Genuine(c, m[s], s) && m[s].parent == parent
    ensures err.None? ==> report' == if m[s].content.Segment? then report.(segments := report.segments + 1)
                                     else report.(records := report.records + 1)
  {
    report' := report;
    if s !in m {
      err := Some(InvalidChainState);
    } else if !HashMatches(c, m[s], s) {
      err := Some(NotAuthentic);
    } else if m[s].parent != parent {
      err := Some(InvalidChainState);
    } else {
      err, report' := VerifyRecord(c, m[s], report);
    }
  }

  method VerifyDetached(m: InSync, c: Crypto, first: nat, last: nat, report: Report)
    returns (err: Option<Error>, report': Report)
    requires first >= 1
    ensures err.None? <==> AllGenuine(m, c, first, last)
    ensures err.None? ==> report' == Counted(m, first, last, report)
  {
    err, report' := None, report;
    NothingCounted(m, first, first - 1, report);
    var s := first;
    while s <= last
      invariant first <= s && (s == first || s <= last + 1)
      invariant err.None? <==> AllGenuine(m, c, first, s - 1)
      invariant err.None? ==> report' == Counted(m, first, s - 1, report)
    {
      CountedNext(m, first, s, report);
      if s in m && err.None? {
        if !HashMatches(c, m[s], s) {
          err := Some(NotAuthentic);
        } else {
          err, report' := VerifyRecord(c, m[s], report');
        }
      }
      s := s + 1;
    }
    if last < first {
      NothingCounted(m, first, last, report);
    }
  }

  // ---------------------------------------------------------------- lookups

  ghost predicate UniqueHashes(m: InSync) {
    forall s, t :: s in m && t in m && m[s].hash == m[t].hash ==> s == t
  }

  ghost function HashAt(m: InSync, h: Hash): (at: Option<nat>)
    ensures at.Some? ==> at.value in m && m[at.value].hash == h
    ensures at.None? ==> forall s :: s in m ==> m[s].hash != h
  {
    if exists s :: s in m && m[s].hash == h then var s :| s in m && m[s].hash == h; Some(s) else None
  }

  ghost function TagAt(m: InSync, t: Tag): (at: Option<nat>)
    ensures at.Some? ==> at.value in m && m[at.value].tag == t
    ensures at.None? ==> forall s :: s in m ==> m[s].tag != t
  {
    if exists s :: s in m && m[s].tag == t then var s :| s in m && m[s].tag == t; Some(s) else None
  }

  method FindByHash(m: InSync, h: Hash) returns (at: Option<nat>)
    requires UniqueHashes(m)
    ensures at == HashAt(m, h)
  {
    if s :| s in m && m[s].hash == h {
      at := Some(s);
    } else {
      at := None;
    }
  }

  method FindByTag(m: InSync, t: Tag) returns (at: Option<nat>)
    requires UniqueTags(m)
    ensures at == TagAt(m, t)
  {
    if s :| s in m && m[s].tag == t {
      at := Some(s);
    } else {
      at := None;
    }
  }

  ghost predicate IsLast(m: InSync, last: nat) {
    && (m == map[] ==> last == 0)
    && (m != map[] ==> last in m)
    && forall s :: s in m ==> s <= last
  }

  method LastSequence(m: InSync) returns (last: nat)
    ensures last == Last(m)
  {
    last := 0;
    var left := m.Keys;
    while left != {}
      invariant left <= m.Keys && (last == 0 ==> left == m.Keys) && (last != 0 ==> last in m)
      invariant forall s :: s in m && s !in left ==> s <= last
      decreases left
    {
      var s :| s in left;
      if last < s {
        last := s;
      }
      left := left - {s};
    }
    assert IsLast(m, last);
  }

  lemma {:induction false} LastExists(m: InSync) returns (last: nat)
    ensures IsLast(m, last)
  {
    if m == map[] {
      last := 0;
    } else {
      var s :| s in m;
      last := LastExists(m - {s});
      assert forall t :: t in m <==> t == s || t in m - {s};
      last := if last < s then s else last;
    }
  }

  /** the newest in sync sequence, 0 when there is none */
  ghost function Last(m: InSync): (last: nat)
    ensures IsLast(m, last)
  {
    assert exists l :: IsLast(m, l) by {
      var l := LastExists(m);
    }
    var last :| IsLast(m, last);
    last
  }

  ghost predicate IsNewestSegment(m: InSync, s: nat) {
    s in m && m[s].content.Segment? && forall t :: t in m && m[t].content.Segment? ==> t <= s
  }

  /** the newest in sync segment */
  ghost function NewestSegment(m: InSync): (at: Option<nat>)
    ensures at.Some? ==> IsNewestSegment(m, at.value)
    ensures at.None? ==> forall s :: !IsNewestSegment(m, s)
  {
    if exists s :: IsNewestSegment(m, s) then var s :| IsNewestSegment(m, s); Some(s) else None
  }

  method FindNewestSegment(m: InSync) returns (at: Option<nat>)
    ensures at == NewestSegment(m)
    ensures at.None? ==> forall s :: s in m ==> !m[s].content.Segment?
  {
    at := None;
    var left := m.Keys;
    while left != {}
      invariant left <= m.Keys
      invariant at.Some? ==> at.value in m && m[at.value].content.Segment?
      invariant forall s :: s in m && s !in left && m[s].content.Segment? ==> at.Some? && s <= at.value
      decreases left
    {
      var s :| s in left;
      if m[s].content.Segment? && (at.None? || at.value < s) {
        at := Some(s);
      }
      left := left - {s};
    }
    assert at.Some? ==> IsNewestSegment(m, at.value);
  }

  /** the tags of the held records of [first, last] in sequence order */
  function TagsInRange(m: InSync, first: nat, last: nat): seq<Tag>
    decreases last
  {
    if last < first || last == 0 then []
    else TagsInRange(m, first, last - 1) + if last in m then [m[last].tag] else []
  }

  // ---------------------------------------------------------------- full verification

  /** the anchor is held, and it and the records below it stand on their own */
  ghost predicate AnchorGood(m: InSync, c: Crypto, anchor: Hash) {
    var a := HashAt(m, anchor);
    a.Some? && AllGenuine(m, c, 1, a.value)
  }

  ghost predicate FromAnchorGood(m: InSync, c: Crypto, anchor: Hash) {
    AnchorGood(m, c, anchor) && LinkedChain(m, c, HashAt(m, anchor).value + 1, Last(m), anchor)
  }

  ghost predicate FullGood(m: InSync, c: Crypto, anchor: Hash) {
    if anchor == [] then LinkedChain(m, c, 1, Last(m), []) else FromAnchorGood(m, c, anchor)
  }

  method VerifyAnchor(m: InSync, c: Crypto, anchor: Hash, report: Report) returns (r: Result<nat>, report': Report)
    requires UniqueHashes(m)
    ensures r.Ok? <==> AnchorGood(m, c, anchor)
    ensures r.Ok? ==> Some(r.value) == HashAt(m, anchor) && report' == Counted(m, 1, r.value, report)
  {
    report' := report;
    var at := FindByHash(m, anchor);
    if at.None? {
      return Err(InvalidChainState), report';
    }
    var a := at.value;
    var err;
    err, report' := VerifyDetached(m, c, 1, a - 1, report);
    if err.None? {
      CountedNext(m, 1, a, report);
      if !HashMatches(c, m[a], a) {
        err := Some(NotAuthentic);
      } else {
        err, report' := VerifyRecord(c, m[a], report');
      }
    }
    r := if err.Some? then Err(err.value) else Ok(a);
  }

  /** counting two ranges in turn counts both */
  lemma CountedSum(m: InSync, a: nat, last: nat, r: Report)
    requires a <= last && forall s :: s in m ==> s <= last
    ensures Counted(m, a + 1, last, Counted(m, 1, a, r)).Sum() == r.Sum() + |m|
    ensures Counted(m, a + 1, last, Counted(m, 1, a, r)).covered == r.covered
  {
    assert m.Keys == Held(m, 1, a) + Held(m, a + 1, last);
    assert |m| == |m.Keys|;
  }

  lemma WholeCounted(m: InSync, last: nat, r: Report)
    requires forall s :: s in m ==> s <= last
    ensures Counted(m, 1, last, r).Sum() == r.Sum() + |m| && Counted(m, 1, last, r).covered == r.covered
  {
    assert m.Keys == Held(m, 1, last);
    assert |m| == |m.Keys|;
  }

  lemma AnchoredIff(m: InSync, c: Crypto, anchor: Hash, a: nat)
    requires AnchorGood(m, c, anchor) && HashAt(m, anchor) == Some(a)
    ensures a in m && m[a].hash == anchor && a <= Last(m)
    ensures FromAnchorGood(m, c, anchor) <==> LinkedChain(m, c, a + 1, Last(m), m[a].hash)
  {
  }

  method VerifyFromAnchor(m: InSync, c: Crypto, anchor: Hash) returns (r: Result<Report>)
    requires UniqueHashes(m)
    ensures r.Ok? <==> FromAnchorGood(m, c, anchor)
    ensures r.Ok? ==> r.value.covered == 0 && r.value.Sum() == |m|
  {
    var a, below := VerifyAnchor(m, c, anchor, Report(0, 0, 0));
    if a.Err? {
      return Err(a.error);
    }
    var last := LastSequence(m);
    AnchoredIff(m, c, anchor, a.value);
    var err, report := VerifyRange(m, c, a.value + 1, last, m[a.value].hash, below);
    CountedSum(m, a.value, last, Report(0, 0, 0));
    r := if err.Some? then Err(err.value) else Ok(report);
  }

  method FullVerify(m: InSync, c: Crypto, anchor: Hash) returns (r: Result<Report>)
    requires UniqueHashes(m)
    ensures r.Ok? <==> FullGood(m, c, anchor)
    ensures r.Ok? ==> r.value.covered == 0 && r.value.Sum() == |m|
  {
    if anchor == [] {
      r := VerifyFromRoot(m, c);
    } else {
      r := VerifyFromAnchor(m, c, anchor);
    }
  }

  method VerifyFromRoot(m: InSync, c: Crypto) returns (r: Result<Report>)
    ensures r.Ok? <==> LinkedChain(m, c, 1, Last(m), [])
    ensures r.Ok? ==> r.value.covered == 0 && r.value.Sum() == |m|
  {
    var last := LastSequence(m);
    var none := Report(0, 0, 0);
    WholeCounted(m, last, none);
    var err, report := VerifyRange(m, c, 1, last, [], none);
    r := if err.Some? then Err(err.value) else Ok(report);
  }

  // ---------------------------------------------------------------- the segment backbone

  /** segments cover from sequence 1 on; with a start of 0 the continuity check would be skipped */
  ghost predicate WellFormedSegments(m: InSync) {
    forall s :: s in m && m[s].content.Segment? ==> m[s].content.start >= 1
  }

  /** the list of a segment is that of the held records of its range, which ends where it is expected to */
  predicate CoverageGood(m: InSync, d: Content, expectedEnd: nat)
    requires d.Segment?
  {
    && d.start < d.end
    && (expectedEnd == 0 || d.end == expectedEnd)
    && d.tags == TagsInRange(m, d.start, d.end - 1)
  }

  predicate EndsAtAnchor(m: InSync, s: nat, anchor: Hash)
    requires s in m
  {
    anchor != [] && m[s].hash == anchor
  }

  /** the segment before s along the backbone, when it names one that is held */
  ghost function SegmentBefore(m: InSync, s: nat): (p: Option<nat>)
    requires s in m && m[s].content.Segment?
    ensures p.Some? ==> p.value in m && m[p.value].content.Segment? && m[p.value].tag == m[s].content.previousSegment
  {
    var p := if m[s].content.previousSegment == [] then None else TagAt(m, m[s].content.previousSegment);
    if p.Some? && m[p.value].content.Segment? then p else None
  }

  /** the walk from the segment s succeeds: to the anchor, or to the chain start */
  ghost predicate BackboneFrom(m: InSync, c: Crypto, s: nat, boundary: nat, anchor: Hash, expectedEnd: nat)
    requires WellFormedSegments(m) && s in m && m[s].content.Segment?
    decreases if expectedEnd == 0 then 1 else 0, expectedEnd
  {
    var d := m[s].content;
    && (s < boundary ==> Genuine(c, m[s], s))
    && (EndsAtAnchor(m, s, anchor) ||
        (CoverageGood(m, d, expectedEnd) &&
         if d.previousSegment == [] then d.start == 1
         else SegmentBefore(m, s).Some? && BackboneFrom(m, c, SegmentBefore(m, s).value, boundary, anchor, d.start)))
  }

  /** the segments of a successful walk, newest first */
  ghost function Walked(m: InSync, c: Crypto, s: nat, boundary: nat, anchor: Hash, expectedEnd: nat): seq<nat>
    requires WellFormedSegments(m) && s in m && m[s].content.Segment?
    requires BackboneFrom(m, c, s, boundary, anchor, expectedEnd)
    decreases if expectedEnd == 0 then 1 else 0, expectedEnd
  {
    [s] + if EndsAtAnchor(m, s, anchor) || m[s].content.previousSegment == [] then []
          else Walked(m, c, SegmentBefore(m, s).value, boundary, anchor, m[s].content.start)
  }

  /** walked segments below the boundary, and the lengths of the lists of those that are not the anchor */
  ghost function AuthenticatedCount(path: seq<nat>, boundary: nat): nat {
    if path == [] then 0 else (if path[0] < boundary then 1 else 0) + AuthenticatedCount(path[1..], boundary)
  }

  ghost function Listed(m: InSync, s: nat, anchor: Hash): nat {
    if s in m && m[s].content.Segment? && !EndsAtAnchor(m, s, anchor) then |m[s].content.tags| else 0
  }

  ghost function ListedCount(m: InSync, path: seq<nat>, anchor: Hash): nat {
    if path == [] then 0 else Listed(m, path[0], anchor) + ListedCount(m, path[1..], anchor)
  }

  method CheckSegmentCoverage(m: InSync, d: Content, expectedEnd: nat, report: Report)
    returns (err: Option<Error>, report': Report)
    requires d.Segment?
    ensures err.None? <==> CoverageGood(m, d, expectedEnd)
    ensures err.None? ==> report' == report.(covered := report.covered + |d.tags|)
  {
    report' := report;
    if d.start >= d.end {
      return Some(InvalidChainState), report';
    }
    if expectedEnd != 0 && d.end != expectedEnd {
      return Some(InvalidChainState), report';
    }
    if d.tags != TagsInRange(m, d.start, d.end - 1) {
      return Some(NotAuthentic), report';
    }
    return None, report.(covered := report.covered + |d.tags|);
  }

  /** step to the previous segment; none without an error ends the walk */
  method NextBackboneSegment(m: InSync, s: nat) returns (err: Option<Error>, handle: Option<nat>)
    requires UniqueTags(m) && s in m && m[s].content.Segment?
    ensures err.None? <==> if m[s].content.previousSegment == [] then m[s].content.start == 1
                           else SegmentBefore(m, s).Some?
    ensures err.None? ==> handle == SegmentBefore(m, s)
    ensures handle.Some? ==> err.None?
  {
    var d := m[s].content;
    err, handle := None, None;
    if d.previousSegment != [] {
      handle := FindByTag(m, d.previousSegment);
      if handle.None? || !m[handle.value].content.Segment? {
        err, handle := Some(InvalidChainState), None;
      }
    } else if d.start != 1 {
      err := Some(InvalidChainState);
    }
  }

  method VerifySegment(m: InSync, c: Crypto, s: nat, report: Report) returns (err: Option<Error>, report': Report)
    requires s in m && m[s].content.Segment?
    ensures err.None? <==> Genuine(c, m[s], s)
    ensures err.None? ==> report' == report.(segments := report.segments + 1)
  {
    report' := report;
    if HashMatches(c, m[s], s) {
      err, report' := VerifyRecord(c, m[s], report);
    } else {
      err := Some(NotAuthentic);
    }
  }

  /** where a walk from the newest segment stands: what is done and from where it goes on */
  ghost predicate Standing(m: InSync, c: Crypto, newest: nat, boundary: nat, anchor: Hash, first: nat,
                           done: seq<nat>, handle: Option<nat>, expectedEnd: nat)
    requires WellFormedSegments(m) && newest in m && m[newest].content.Segment?
  {
    var good := BackboneFrom(m, c, newest, boundary, anchor, first);
    if handle.None? then good && Walked(m, c, newest, boundary, anchor, first) == done
    else
      && handle.value in m && m[handle.value].content.Segment?
      && (good <==> BackboneFrom(m, c, handle.value, boundary, anchor, expectedEnd))
      && (good ==> Walked(m, c, newest, boundary, anchor, first) ==
                   done + Walked(m, c, handle.value, boundary, anchor, expectedEnd))
  }

  /** the checks of one segment, and where the walk goes on when they pass */
  ghost predicate StepGood(m: InSync, c: Crypto, s: nat, boundary: nat, anchor: Hash, expectedEnd: nat,
                           next: Option<nat>)
    requires s in m && m[s].content.Segment?
  {
    && (s < boundary ==> Genuine(c, m[s], s))
    && if EndsAtAnchor(m, s, anchor) then next.None?
       else
         && CoverageGood(m, m[s].content, expectedEnd)
         && next == SegmentBefore(m, s)
         && (m[s].content.previousSegment == [] ==> m[s].content.start == 1)
         && (m[s].content.previousSegment != [] ==> next.Some?)
  }

  /**
   * Why the segments have to be well formed: a start of 0 is taken for none, the continuity check is
   * skipped, and two such segments that name each other pass one after the other without an end.
   */
  lemma ZeroStartsCycle(c: Crypto, first: Row, h: Hash, k: Hash) returns (m: InSync)
    requires first.content.DataChange? && first.tag == [1]
    ensures m.Keys == {1, 2, 3} && m[1] == first && UniqueTags(m)
    ensures m[2].content.Segment? && m[3].content.Segment?
    ensures StepGood(m, c, 3, 2, [], 0, Some(2)) && StepGood(m, c, 2, 2, [], m[3].content.start, Some(3))
    ensures m[2].content.start == 0
  {
    var a := Row(Segment(0, 2, [[1]], [3], []), [2], h, first.hash);
    var b := Row(Segment(0, 2, [[1]], [2], []), [3], k, h);
    m := map[1 := first, 2 := a, 3 := b];
    assert TagsInRange(m, 0, 0) == [];
    assert TagsInRange(m, 0, 1) == [[1]];
    assert m[2].tag == [2] && m[3].tag == [3];
    assert forall s :: s in m && m[s].tag == [2] ==> s == 2;
    assert forall s :: s in m && m[s].tag == [3] ==> s == 3;
    assert TagAt(m, [2]) == Some(2) && TagAt(m, [3]) == Some(3);
    assert SegmentBefore(m, 3) == Some(2) && SegmentBefore(m, 2) == Some(3);
  }

  /** a good step: the walk from here succeeds exactly when the walk from there does, one segment more */
  lemma StepGoesOn(m: InSync, c: Crypto, s: nat, boundary: nat, anchor: Hash, expectedEnd: nat, next: Option<nat>)
    requires WellFormedSegments(m) && s in m && m[s].content.Segment?
    requires StepGood(m, c, s, boundary, anchor, expectedEnd, next)
    ensures next.None? ==>
              && BackboneFrom(m, c, s, boundary, anchor, expectedEnd)
              && Walked(m, c, s, boundary, anchor, expectedEnd) == [s]
    ensures next.Some? ==>
              && next.value in m && m[next.value].content.Segment?
              && (BackboneFrom(m, c, s, boundary, anchor, expectedEnd) <==>
                  BackboneFrom(m, c, next.value, boundary, anchor, m[s].content.start))
              && (BackboneFrom(m, c, s, boundary, anchor, expectedEnd) ==>
                    Walked(m, c, s, boundary, anchor, expectedEnd) ==
                    [s] + Walked(m, c, next.value, boundary, anchor, m[s].content.start))
  {
  }

  lemma StandingNext(m: InSync, c: Crypto, newest: nat, boundary: nat, anchor: Hash, first: nat,
                     done: seq<nat>, s: nat, expectedEnd: nat, next: Option<nat>)
    requires WellFormedSegments(m) && newest in m && m[newest].content.Segment?
    requires Standing(m, c, newest, boundary, anchor, first, done, Some(s), expectedEnd)
    requires StepGood(m, c, s, boundary, anchor, expectedEnd, next)
    ensures Standing(m, c, newest, boundary, anchor, first, done + [s], next, m[s].content.start)
  {
    StepGoesOn(m, c, s, boundary, anchor, expectedEnd, next);
    if next.Some? && BackboneFrom(m, c, next.value, boundary, anchor, m[s].content.start) {
      Regrouped(done, s, Walked(m, c, next.value, boundary, anchor, m[s].content.start));
    }
  }

  method BackboneStep(m: InSync, c: Crypto, s: nat, boundary: nat, anchor: Hash, expectedEnd: nat, report: Report)
    returns (err: Option<Error>, handle: Option<nat>, report': Report)
    requires WellFormedSegments(m) && UniqueTags(m) && s in m && m[s].content.Segment?
    ensures err.Some? ==> !BackboneFrom(m, c, s, boundary, anchor, expectedEnd) && handle.None?
    ensures err.None? ==> StepGood(m, c, s, boundary, anchor, expectedEnd, handle)
    ensures err.None? ==>
              report' == Report(report.records, report.segments + (if s < boundary then 1 else 0),
                                report.covered + Listed(m, s, anchor))
  {
    err, handle, report' := None, None, report;
    if s < boundary {
      err, report' := VerifySegment(m, c, s, report);
    }
    if err.None? && !EndsAtAnchor(m, s, anchor) {
      err, report' := CheckSegmentCoverage(m, m[s].content, expectedEnd, report');
      if err.None? {
        err, handle := NextBackboneSegment(m, s);
      }
    }
  }

  lemma {:induction false} CountsNext(m: InSync, done: seq<nat>, s: nat, boundary: nat, anchor: Hash)
    ensures AuthenticatedCount(done + [s], boundary) == AuthenticatedCount(done, boundary) + if s < boundary then 1
                                                                                             else 0
    ensures ListedCount(m, done + [s], anchor) == ListedCount(m, done, anchor) + Listed(m, s, anchor)
  {
    if done != [] {
      CountsNext(m, done[1..], s, boundary, anchor);
      assert (done + [s])[1..] == done[1..] + [s];
    }
  }

  method VerifyBackbone(m: InSync, c: Crypto, newest: nat, boundary: nat, anchor: Hash, report: Report)
    returns (err: Option<Error>, report': Report)
    requires WellFormedSegments(m) && UniqueTags(m) && newest in m && m[newest].content.Segment?
    ensures err.None? <==> BackboneFrom(m, c, newest, boundary, anchor, 0)
    ensures err.None? ==>
              var path := Walked(m, c, newest, boundary, anchor, 0);
              var n := AuthenticatedCount(path, boundary);
              report' == Report(report.records, report.segments + n, report.covered + ListedCount(m, path, anchor) - n)
  {
    err, report' := None, report;
    var walked, expectedEnd, handle := 0, 0, Some(newest);
    ghost var done: seq<nat> := [];
    while err.None? && handle.Some?
      invariant err.Some? ==> !BackboneFrom(m, c, newest, boundary, anchor, 0)
      invariant err.None? ==> Standing(m, c, newest, boundary, anchor, 0, done, handle, expectedEnd)
      invariant err.None? ==> walked == AuthenticatedCount(done, boundary)
      invariant err.None? ==>
                  report' ==
                  Report(report.records, report.segments + walked, report.covered + ListedCount(m, done, anchor))
      decreases err.None? && handle.Some?, if expectedEnd == 0 then 1 else 0, expectedEnd
    {
      var s := handle.value;
      err, handle, report' := BackboneStep(m, c, s, boundary, anchor, expectedEnd, report');
      if err.None? {
        StandingNext(m, c, newest, boundary, anchor, 0, done, s, expectedEnd, handle);
        CountsNext(m, done, s, boundary, anchor);
        done := done + [s];
        walked := walked + if s < boundary then 1 else 0;
        expectedEnd := m[s].content.start;
      }
    }
    if err.None? {
      report' := report'.(covered := report'.covered - walked);
    }
  }

  // ---------------------------------------------------------------- fast verification

  /** from the newest segment's stated end on everything is linked, from the stored hash before it */
  ghost predicate TailGood(m: InSync, c: Crypto, boundary: nat) {
    boundary > 0 && boundary - 1 in m && LinkedChain(m, c, boundary, Last(m), m[boundary - 1].hash)
  }

  /** the retained records below a held anchor stand on their own; nothing to check without an anchor */
  ghost predicate RetainedGood(m: InSync, c: Crypto, anchor: Hash) {
    anchor != [] ==> HashAt(m, anchor).Some? && AllGenuine(m, c, 1, HashAt(m, anchor).value - 1)
  }

  ghost predicate BackboneGood(m: InSync, c: Crypto, anchor: Hash, newest: nat)
    requires WellFormedSegments(m) && newest in m && m[newest].content.Segment?
  {
    var boundary := m[newest].content.end;
    RetainedGood(m, c, anchor) && TailGood(m, c, boundary) && BackboneFrom(m, c, newest, boundary, anchor, 0)
  }

  ghost predicate FastGood(m: InSync, c: Crypto, anchor: Hash)
    requires WellFormedSegments(m)
  {
    var newest := NewestSegment(m);
    if newest.None? then FullGood(m, c, anchor)
    else if EndsAtAnchor(m, newest.value, anchor) then FromAnchorGood(m, c, anchor)
    else BackboneGood(m, c, anchor, newest.value)
  }

  /** what the counters of a successful backbone verification add up to */
  ghost function BackboneSum(m: InSync, c: Crypto, anchor: Hash, newest: nat): int
    requires WellFormedSegments(m) && newest in m && m[newest].content.Segment?
    requires BackboneGood(m, c, anchor, newest)
  {
    var boundary := m[newest].content.end;
    (if anchor == [] then 0 else |Held(m, 1, HashAt(m, anchor).value - 1)|) + |Held(m, boundary, Last(m))| +
    ListedCount(m, Walked(m, c, newest, boundary, anchor, 0), anchor)
  }

  method VerifyTail(m: InSync, c: Crypto, boundary: nat, report: Report) returns (err: Option<Error>, report': Report)
    ensures err.None? <==> TailGood(m, c, boundary)
    ensures err.None? ==> report' == Counted(m, boundary, Last(m), report)
  {
    if boundary == 0 || boundary - 1 !in m {
      return Some(InvalidChainState), report;
    }
    var last := LastSequence(m);
    err, report' := VerifyRange(m, c, boundary, last, m[boundary - 1].hash, report);
  }

  method VerifyRetained(m: InSync, c: Crypto, anchor: Hash) returns (err: Option<Error>, report: Report)
    requires UniqueHashes(m)
    ensures err.None? <==> RetainedGood(m, c, anchor)
    ensures err.None? ==>
              && report.covered == 0
              && report.Sum() == if anchor == [] then 0 else |Held(m, 1, HashAt(m, anchor).value - 1)|
  {
    err, report := None, Report(0, 0, 0);
    if anchor != [] {
      var a := FindByHash(m, anchor);
      if a.None? {
        err := Some(InvalidChainState);
      } else {
        err, report := VerifyDetached(m, c, 1, a.value - 1, report);
      }
    }
  }

  method VerifyByBackbone(m: InSync, c: Crypto, anchor: Hash, newest: nat) returns (r: Result<Report>)
    requires WellFormedSegments(m) && UniqueTags(m) && UniqueHashes(m)
    requires newest in m && m[newest].content.Segment?
    ensures r.Ok? <==> BackboneGood(m, c, anchor, newest)
    ensures r.Ok? ==> r.value.Sum() == BackboneSum(m, c, anchor, newest)
    ensures r.Ok? ==>
              var boundary := m[newest].content.end;
              var path := Walked(m, c, newest, boundary, anchor, 0);
              r.value.covered == ListedCount(m, path, anchor) - AuthenticatedCount(path, boundary)
  {
    var err, report := VerifyRetained(m, c, anchor);
    if err.None? {
      var boundary := m[newest].content.end;
      err, report := VerifyTail(m, c, boundary, report);
      if err.None? {
        err, report := VerifyBackbone(m, c, newest, boundary, anchor, report);
      }
    }
    r := if err.Some? then Err(err.value) else Ok(report);
  }

  method FastVerify(m: InSync, c: Crypto, anchor: Hash) returns (r: Result<Report>)
    requires WellFormedSegments(m) && UniqueTags(m) && UniqueHashes(m)
    ensures r.Ok? <==> FastGood(m, c, anchor)
    ensures r.Ok? ==>
              var newest := NewestSegment(m);
              r.value.Sum() == if newest.None? || EndsAtAnchor(m, newest.value, anchor) then |m|
                               else BackboneSum(m, c, anchor, newest.value)
  {
    var newest := FindNewestSegment(m);
    if newest.None? {
      r := FullVerify(m, c, anchor);
    } else if EndsAtAnchor(m, newest.value, anchor) {
      r := VerifyFromAnchor(m, c, anchor);
    } else {
      r := VerifyByBackbone(m, c, anchor, newest.value);
    }
  }
}
