/**
 * The record table and the walks over it (spsync/core/record_storage.cpp).
 *
 * The constraint UNIQUE(seq, unique_seq_selector) lets one in sync record hold a sequence,
 * so the in sync part of the table is a map from sequences; the rows in the other states
 * are a list beside it.
 */
module RecordStorage {
  import opened Common
  import opened Octets

  type Tag = OctetVector

  type Hash = OctetVector

  type ObjectId = OctetVector

  type DataId = OctetVector

  /** a change of one object: the record that changed it before, the data the change carries */
  datatype ObjectChange = ObjectChange(oid: ObjectId, previous: Tag, data: Option<DataId>)

  datatype Content =
    | UserChange(body: OctetVector)
    | DataChange(changes: seq<ObjectChange>, body: OctetVector)
    | Segment(start: nat, end: nat, tags: seq<Tag>, previousSegment: Tag, body: OctetVector)

  /** a stored record: its content under its tag, and the hash columns of the table */
  datatype Row = Row(content: Content, tag: Tag, hash: Hash, parent: Hash)

  /** a row in another state than in sync */
  datatype OtherState = Invalid | PendingCommit | PendingSync | Acked

  datatype OtherRow = OtherRow(row: Row, at: nat, state: OtherState)

  type InSync = m: map<nat, Row> | 0 !in m

  ghost predicate UniqueTags(m: InSync) {
    forall s, t :: s in m && t in m && m[s].tag == m[t].tag ==> s == t
  }

  // ---------------------------------------------------------------- object versions

  function Changes(row: Row): seq<ObjectChange> {
    if row.content.DataChange? then row.content.changes else []
  }

  /** the first change of the object in the record; its number of changes when there is none */
  function ChangeIndex(cs: seq<ObjectChange>, oid: ObjectId): nat {
    if cs == [] || cs[0].oid == oid then 0 else 1 + ChangeIndex(cs[1..], oid)
  }

  lemma {:induction false} ChangeIndexIsFirst(cs: seq<ObjectChange>, oid: ObjectId)
    ensures var i := ChangeIndex(cs, oid);
            && i <= |cs|
            && (forall k :: 0 <= k < i ==> cs[k].oid != oid)
            && (i < |cs| ==> cs[i].oid == oid)
  {
    if cs != [] {
      ChangeIndexIsFirst(cs[1..], oid);
    }
  }

  predicate ChangesObject(row: Row, oid: ObjectId) {
    ChangeIndex(Changes(row), oid) < |Changes(row)|
  }

  datatype Version = Version(at: nat, tag: Tag, previous: Tag, data: Option<DataId>)

  function VersionAt(m: InSync, oid: ObjectId, s: nat): Version
    requires s in m && ChangesObject(m[s], oid)
  {
    var c := Changes(m[s])[ChangeIndex(Changes(m[s]), oid)];
    Version(s, m[s].tag, c.previous, c.data)
  }

  ghost predicate IsVersion(m: InSync, oid: ObjectId, v: Version) {
    v.at in m && ChangesObject(m[v.at], oid) && v == VersionAt(m, oid, v.at)
  }

  /** the newest in sync record that changes the object */
  ghost predicate IsHead(m: InSync, oid: ObjectId, s: nat) {
    && s in m && ChangesObject(m[s], oid)
    && forall t :: t in m && ChangesObject(m[t], oid) ==> t <= s
  }

  ghost predicate HasObject(m: InSync, oid: ObjectId) {
    exists s :: s in m && ChangesObject(m[s], oid)
  }

  /** what the record with the tag is to the object: a version of it, or nothing when the chain dangles */
  ghost function Linked(m: InSync, oid: ObjectId, tag: Tag): (v: Option<Version>)
    ensures v.Some? ==> IsVersion(m, oid, v.value) && v.value.tag == tag && tag != []
    ensures v.None? ==> tag == [] || forall s :: s in m && m[s].tag == tag ==> !ChangesObject(m[s], oid)
  {
    if tag != [] && exists s :: s in m && m[s].tag == tag && ChangesObject(m[s], oid) then
      var s :| s in m && m[s].tag == tag && ChangesObject(m[s], oid);
      Some(VersionAt(m, oid, s))
    else
      None
  }

  ghost function TagsOf(m: InSync): set<Tag> {
    set s | s in m :: m[s].tag
  }

  /** the versions from the given one along the previous-record links, as far as they are new */
  ghost function VersionsFrom(m: InSync, oid: ObjectId, v: Version, visited: set<Tag>): seq<Version>
    requires IsVersion(m, oid, v)
    decreases TagsOf(m) - visited
  {
    if v.tag in visited then []
    else
      assert v.tag in TagsOf(m);
      var next := Linked(m, oid, v.previous);
      [v] + if next.Some? then VersionsFrom(m, oid, next.value, visited + {v.tag}) else []
  }

  ghost function HeadOf(m: InSync, oid: ObjectId): (h: Option<nat>)
    ensures h.Some? ==> IsHead(m, oid, h.value)
    ensures h.None? ==> forall s :: !IsHead(m, oid, s)
  {
    if exists s :: IsHead(m, oid, s) then var s :| IsHead(m, oid, s); Some(s) else None
  }

  /** the versions of an object, newest first; none when no in sync record changes it */
  ghost function Versions(m: InSync, oid: ObjectId): seq<Version> {
    var h := HeadOf(m, oid);
    if h.Some? then VersionsFrom(m, oid, VersionAt(m, oid, h.value), {}) else []
  }

  lemma HeadExists(m: InSync, oid: ObjectId, s: nat)
    requires s in m && ChangesObject(m[s], oid)
    ensures exists h :: IsHead(m, oid, h)
  {
    var h, left := s, m.Keys;
    while left != {}
      invariant left <= m.Keys && h in m && ChangesObject(m[h], oid)
      invariant forall t :: t in m && t !in left && ChangesObject(m[t], oid) ==> t <= h
      decreases left
    {
      var t :| t in left;
      if ChangesObject(m[t], oid) && h < t {
        h := t;
      }
      left := left - {t};
    }
    assert IsHead(m, oid, h);
  }

  lemma {:induction false} VersionsFromProperties(m: InSync, oid: ObjectId, v: Version, visited: set<Tag>)
    requires IsVersion(m, oid, v)
    ensures var vs := VersionsFrom(m, oid, v, visited);
            && (forall w :: w in vs ==> IsVersion(m, oid, w) && w.tag !in visited)
            && (forall i, j :: 0 <= i < j < |vs| ==> vs[i].tag != vs[j].tag)
    decreases TagsOf(m) - visited
  {
    if v.tag !in visited {
      assert v.tag in TagsOf(m);
      var next := Linked(m, oid, v.previous);
      if next.Some? {
        VersionsFromProperties(m, oid, next.value, visited + {v.tag});
      }
    }
  }

  lemma VersionsProperties(m: InSync, oid: ObjectId)
    ensures forall w :: w in Versions(m, oid) ==> IsVersion(m, oid, w)
    ensures forall i, j :: 0 <= i < j < |Versions(m, oid)| ==> Versions(m, oid)[i].tag != Versions(m, oid)[j].tag
  {
    var h := HeadOf(m, oid);
    if h.Some? {
      VersionsFromProperties(m, oid, VersionAt(m, oid, h.value), {});
    }
  }

  method FindObjectVersion(m: InSync, oid: ObjectId, tag: Tag) returns (v: Option<Version>)
    requires UniqueTags(m) && tag != []
    ensures v == Linked(m, oid, tag)
  {
    if s :| s in m && m[s].tag == tag && ChangesObject(m[s], oid) {
      v := Some(VersionAt(m, oid, s));
    } else {
      v := None;
    }
  }

  /** the walk ends on any link structure: every step visits another tag of the table */
  method ObjectVersions(m: InSync, oid: ObjectId, head: nat) returns (ret: seq<Version>)
    requires UniqueTags(m) && IsHead(m, oid, head)
    ensures ret == Versions(m, oid)
  {
    assert HeadOf(m, oid) == Some(head);
    ret := [];
    var visited: set<Tag> := {};
    var version := Some(VersionAt(m, oid, head));
    while version.Some? && version.value.tag !in visited
      invariant version.Some? ==> IsVersion(m, oid, version.value)
      invariant ret + (if version.Some? then VersionsFrom(m, oid, version.value, visited) else []) == Versions(m, oid)
      decreases TagsOf(m) - visited
    {
      var v := version.value;
      assert v.tag in TagsOf(m);
      ret := ret + [v];
      visited := visited + {v.tag};
      if v.previous == [] {
        version := None;
      } else {
        version := FindObjectVersion(m, oid, v.previous);
      }
    }
  }

  /** the newest in sync record of every object */
  method CollectObjectHeads(m: InSync) returns (heads: map<ObjectId, nat>)
    ensures forall oid :: oid in heads <==> HasObject(m, oid)
    ensures forall oid :: oid in heads ==> IsHead(m, oid, heads[oid])
  {
    heads := map[];
    var left := m.Keys;
    while left != {}
      invariant left <= m.Keys
      invariant forall oid :: oid in heads ==> heads[oid] in m && ChangesObject(m[heads[oid]], oid)
      invariant forall s, oid :: s in m && s !in left && ChangesObject(m[s], oid) ==> oid in heads && s <= heads[oid]
      decreases left
    {
      var s :| s in left;
      heads := WithChangesOf(m, s, heads);
      left := left - {s};
    }
  }

  method WithChangesOf(m: InSync, s: nat, was: map<ObjectId, nat>) returns (heads: map<ObjectId, nat>)
    requires s in m
    ensures forall oid :: oid in was ==> oid in heads && was[oid] <= heads[oid]
    ensures forall oid :: oid in heads ==>
                            (oid in was && heads[oid] == was[oid]) || (heads[oid] == s && ChangesObject(m[s], oid))
    ensures forall oid :: ChangesObject(m[s], oid) ==> oid in heads && s <= heads[oid]
  {
    heads := was;
    var cs := Changes(m[s]);
    for i := 0 to |cs|
      invariant forall oid :: oid in was ==> oid in heads && was[oid] <= heads[oid]
      invariant forall oid :: oid in heads ==>
                                (oid in was && heads[oid] == was[oid]) || (heads[oid] == s && ChangesObject(m[s], oid))
      invariant forall k :: 0 <= k < i ==> cs[k].oid in heads && s <= heads[cs[k].oid]
    {
      var oid := cs[i].oid;
      ChangeIndexIsFirst(cs, oid);
      assert ChangesObject(m[s], oid);
      if oid !in heads || heads[oid] < s {
        heads := heads[oid := s];
      }
    }
    forall oid | ChangesObject(m[s], oid)
      ensures oid in heads && s <= heads[oid]
    {
      ChangeIndexIsFirst(cs, oid);
    }
  }

  // ---------------------------------------------------------------- the history cut

  ghost predicate TagAmong(vs: seq<Version>, below: nat, t: Tag) {
    exists v :: v in vs && v.at < below && v.tag == t
  }

  ghost predicate ObjectChainBelow(m: InSync, oid: ObjectId, below: nat, t: Tag) {
    TagAmong(Versions(m, oid), below, t)
  }

  /** the record is below the cut and on the version chain of some object */
  ghost predicate OnChainBelow(m: InSync, below: nat, t: Tag) {
    exists oid :: ObjectChainBelow(m, oid, below, t)
  }

  ghost predicate Distinct(ts: seq<Tag>) {
    forall i, j :: 0 <= i < j < |ts| ==> ts[i] != ts[j]
  }

  lemma TagAmongNext(vs: seq<Version>, i: nat, below: nat, t: Tag)
    requires i < |vs|
    ensures TagAmong(vs[..i + 1], below, t) <==> TagAmong(vs[..i], below, t) || (vs[i].at < below && vs[i].tag == t)
  {
    assert vs[..i + 1] == vs[..i] + [vs[i]];
    assert vs[i] in vs[..i + 1];
  }

  /** the tags there were, and those of the versions below the cut */
  ghost predicate Gathered(vs: seq<Version>, below: nat, was: seq<Tag>, ret: seq<Tag>) {
    Distinct(ret) && forall t :: t in ret <==> t in was || TagAmong(vs, below, t)
  }

  lemma GatheredNext(vs: seq<Version>, i: nat, below: nat, was: seq<Tag>, ret: seq<Tag>)
    requires i < |vs| && Gathered(vs[..i], below, was, ret)
    ensures Gathered(vs[..i + 1], below, was,
                     if vs[i].at < below && vs[i].tag !in ret then ret + [vs[i].tag] else ret)
  {
    forall t
      ensures TagAmong(vs[..i + 1], below, t) <==> TagAmong(vs[..i], below, t) || (vs[i].at < below && vs[i].tag == t)
    {
      TagAmongNext(vs, i, below, t);
    }
  }

  method CollectObjectChain(m: InSync, oid: ObjectId, head: nat, below: nat, was: seq<Tag>) returns (ret: seq<Tag>)
    requires UniqueTags(m) && IsHead(m, oid, head) && Distinct(was)
    ensures forall t :: t in ret <==> t in was || ObjectChainBelow(m, oid, below, t)
    ensures Distinct(ret)
  {
    ret := was;
    var versions := ObjectVersions(m, oid, head);
    for i := 0 to |versions|
      invariant Gathered(versions[..i], below, was, ret)
    {
      var v := versions[i];
      GatheredNext(versions, i, below, was, ret);
      if v.at < below && v.tag !in ret {
        ret := ret + [v.tag];
      }
    }
    assert versions[..|versions|] == versions;
  }

  /** exactly the tags below the cut on the chains of the objects that are done */
  ghost predicate Covers(m: InSync, below: nat, done: set<ObjectId>, ret: seq<Tag>) {
    Distinct(ret) && forall t :: t in ret <==> exists oid :: oid in done && ObjectChainBelow(m, oid, below, t)
  }

  lemma CoversNext(m: InSync, below: nat, done: set<ObjectId>, oid: ObjectId, ret: seq<Tag>, ret': seq<Tag>)
    requires Covers(m, below, done, ret) && Distinct(ret')
    requires forall t :: t in ret' <==> t in ret || ObjectChainBelow(m, oid, below, t)
    ensures Covers(m, below, done + {oid}, ret')
  {
    forall t
      ensures t in ret' <==> exists o :: o in done + {oid} && ObjectChainBelow(m, o, below, t)
    {
      if ObjectChainBelow(m, oid, below, t) {
        assert oid in done + {oid};
      }
    }
  }

  lemma CoversAll(m: InSync, below: nat, done: set<ObjectId>, ret: seq<Tag>)
    requires Covers(m, below, done, ret) && forall oid :: HasObject(m, oid) ==> oid in done
    ensures forall t :: t in ret <==> OnChainBelow(m, below, t)
  {
    forall t | OnChainBelow(m, below, t)
      ensures t in ret
    {
      var oid :| ObjectChainBelow(m, oid, below, t);
      VersionsProperties(m, oid);
    }
  }

  method ObjectChainTagsBelow(m: InSync, below: nat) returns (ret: seq<Tag>)
    requires UniqueTags(m)
    ensures forall t :: t in ret <==> OnChainBelow(m, below, t)
    ensures Distinct(ret)
  {
    ret := [];
    var heads := CollectObjectHeads(m);
    var left := heads.Keys;
    ghost var done: set<ObjectId> := {};
    while left != {}
      invariant left <= heads.Keys && done + left == heads.Keys && Covers(m, below, done, ret)
      decreases left
    {
      var oid :| oid in left;
      ghost var before := ret;
      ret := CollectObjectChain(m, oid, heads[oid], below, ret);
      CoversNext(m, below, done, oid, before, ret);
      left, done := left - {oid}, done + {oid};
    }
    CoversAll(m, below, done, ret);
  }

  function TruncatedInSync(m: InSync, firstKept: nat, keep: set<Tag>): InSync {
    map s | s in m && (firstKept <= s || m[s].tag in keep) :: m[s]
  }

  predicate Truncates(o: OtherRow, firstKept: nat, keep: set<Tag>) {
    o.at < firstKept && (o.state == Acked || o.state == PendingSync) && o.row.tag !in keep
  }

  function TruncatedOthers(os: seq<OtherRow>, firstKept: nat, keep: set<Tag>): seq<OtherRow> {
    if os == [] then []
    else (if Truncates(os[0], firstKept, keep) then [] else [os[0]]) + TruncatedOthers(os[1..], firstKept, keep)
  }

  /** what an object's chain reaches stays in the table: then its versions stay as they are */
  lemma {:induction false} VersionsFromKept(m: InSync, m': InSync, oid: ObjectId, v: Version, visited: set<Tag>)
    requires UniqueTags(m) && (forall s :: s in m' ==> s in m && m'[s] == m[s])
    requires IsVersion(m, oid, v)
    requires forall w :: w in VersionsFrom(m, oid, v, visited) ==> w.at in m'
    requires v.at in m'
    ensures VersionsFrom(m', oid, v, visited) == VersionsFrom(m, oid, v, visited)
    decreases TagsOf(m) - visited
  {
    if v.tag !in visited {
      assert v.tag in TagsOf(m);
      var next, next' := Linked(m, oid, v.previous), Linked(m', oid, v.previous);
      if next.Some? {
        var rest := VersionsFrom(m, oid, next.value, visited + {v.tag});
        assert forall w :: w in rest ==> w in VersionsFrom(m, oid, v, visited);
        if next.value.at in m' {
          assert next' == next;
          VersionsFromKept(m, m', oid, next.value, visited + {v.tag});
        }
      }
    }
  }

  /** a cut that keeps the object chains leaves every object's version list as it was */
  lemma CutKeepsVersions(m: InSync, below: nat, keep: set<Tag>, oid: ObjectId)
    requires UniqueTags(m) && forall t :: OnChainBelow(m, below, t) ==> t in keep
    ensures Versions(TruncatedInSync(m, below, keep), oid) == Versions(m, oid)
    ensures forall s :: IsHead(TruncatedInSync(m, below, keep), oid, s) <==> IsHead(m, oid, s)
  {
    var m' := TruncatedInSync(m, below, keep);
    VersionsProperties(m, oid);
    if HeadOf(m, oid).Some? {
      var h := HeadOf(m, oid).value;
      var v := VersionAt(m, oid, h);
      assert v in Versions(m, oid) by {
        assert VersionsFrom(m, oid, v, {})[0] == v;
      }
      forall w | w in Versions(m, oid)
        ensures w.at in m'
      {
        assert w.at < below ==> ObjectChainBelow(m, oid, below, w.tag);
      }
      VersionsFromKept(m, m', oid, v, {});
      assert IsHead(m', oid, h);
      assert HeadOf(m', oid) == Some(h);
    } else {
      forall s | s in m
        ensures !ChangesObject(m[s], oid)
      {
        if ChangesObject(m[s], oid) {
          HeadExists(m, oid, s);
        }
      }
    }
  }
}
