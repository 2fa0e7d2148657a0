/**
 * The retention policy at a history cut: which data the superseded versions of the objects
 * let go (spsync/core/record_storage.cpp, spsync/core/data/data_index.cpp).
 */
module Retention {
  import opened Common
  import opened RecordStorage
  import opened DataStates

  const KEEP_ALL_DATA_VERSIONS := 0xFFFF_FFFF

  /** a row of record_objects: the record's tag and which of its changes */
  type Ref = (Tag, nat)

  /** the tags of all records of the table, in any state, are distinct */
  ghost predicate TableTags(m: InSync, others: seq<OtherRow>) {
    && UniqueTags(m)
    && (forall s, k :: s in m && 0 <= k < |others| ==> m[s].tag != others[k].row.tag)
    && (forall i, k :: 0 <= i < k < |others| ==> others[i].row.tag != others[k].row.tag)
  }

  predicate NamesData(row: Row, i: nat, d: DataId) {
    i < |Changes(row)| && Changes(row)[i].data == Some(d)
  }

  /** every object row that names the data, of records in any state */
  function References(m: InSync, others: seq<OtherRow>, d: DataId): set<Ref> {
    (set s, i: nat | s in m && i < |Changes(m[s])| && NamesData(m[s], i, d) :: (m[s].tag, i)) +
    (set k: nat, i: nat | k < |others| && i < |Changes(others[k].row)| && NamesData(others[k].row, i, d) ::
       (others[k].row.tag, i))
  }

  function ReferenceCount(m: InSync, others: seq<OtherRow>, d: DataId): nat {
    |References(m, others, d)|
  }

  // ---------------------------------------------------------------- superseded versions

  predicate Carrying(v: Version, below: nat) {
    v.data.Some? && v.at < below
  }

  function CarryingCount(vs: seq<Version>, below: nat): nat {
    if vs == [] then 0
    else CarryingCount(vs[..|vs| - 1], below) + (if Carrying(vs[|vs| - 1], below) then 1 else 0)
  }

  /** a version below the cut that carries data, with at least the kept number of newer such ones */
  ghost predicate SupersededAt(m: InSync, oid: ObjectId, i: nat, below: nat, kept: nat) {
    var vs := Versions(m, oid);
    i < |vs| && Carrying(vs[i], below) && CarryingCount(vs[..i], below) >= kept
  }

  ghost function RefOf(m: InSync, oid: ObjectId, v: Version): Ref
    requires IsVersion(m, oid, v)
  {
    (v.tag, ChangeIndex(Changes(m[v.at]), oid))
  }

  lemma VersionAtIndex(m: InSync, oid: ObjectId, i: nat)
    requires i < |Versions(m, oid)|
    ensures IsVersion(m, oid, Versions(m, oid)[i])
  {
    VersionsProperties(m, oid);
    assert Versions(m, oid)[i] in Versions(m, oid);
  }

  /** the object row of the i-th version is r and names d */
  ghost predicate RowOfVersion(m: InSync, oid: ObjectId, i: nat, d: DataId, r: Ref) {
    var vs := Versions(m, oid);
    i < |vs| && vs[i].data == Some(d) && IsVersion(m, oid, vs[i]) && RefOf(m, oid, vs[i]) == r
  }

  ghost predicate SupersededRow(m: InSync, oid: ObjectId, d: DataId, r: Ref, below: nat, kept: nat) {
    exists i: nat :: SupersededAt(m, oid, i, below, kept) && RowOfVersion(m, oid, i, d, r)
  }

  /** r is the row of a superseded version of some object and names d */
  ghost predicate Superseded(m: InSync, d: DataId, r: Ref, below: nat, kept: nat) {
    exists oid :: SupersededRow(m, oid, d, r, below, kept)
  }

  /** a row belongs to one version of one object */
  lemma RowIdentifies(m: InSync, oid: ObjectId, i: nat, oid': ObjectId, i': nat, d: DataId, d': DataId, r: Ref)
    requires UniqueTags(m) && RowOfVersion(m, oid, i, d, r) && RowOfVersion(m, oid', i', d', r)
    ensures oid == oid' && i == i' && d == d'
  {
    var v, v' := Versions(m, oid)[i], Versions(m, oid')[i'];
    assert v.at == v'.at;
    ChangeIndexIsFirst(Changes(m[v.at]), oid);
    ChangeIndexIsFirst(Changes(m[v.at]), oid');
    VersionsProperties(m, oid);
  }

  lemma ObjectOfRow(m: InSync, oid: ObjectId, oid': ObjectId, d: DataId, r: Ref, below: nat, kept: nat)
    requires UniqueTags(m) && SupersededRow(m, oid, d, r, below, kept) && SupersededRow(m, oid', d, r, below, kept)
    ensures oid == oid'
  {
    var i: nat :| SupersededAt(m, oid, i, below, kept) && RowOfVersion(m, oid, i, d, r);
    var i': nat :| SupersededAt(m, oid', i', below, kept) && RowOfVersion(m, oid', i', d, r);
    RowIdentifies(m, oid, i, oid', i', d, d, r);
  }

  lemma RowHasObject(m: InSync, oid: ObjectId, d: DataId, r: Ref, below: nat, kept: nat)
    requires SupersededRow(m, oid, d, r, below, kept)
    ensures HasObject(m, oid)
  {
    var i: nat :| SupersededAt(m, oid, i, below, kept) && RowOfVersion(m, oid, i, d, r);
  }

  lemma RowIsReference(m: InSync, others: seq<OtherRow>, oid: ObjectId, i: nat, d: DataId, r: Ref)
    requires RowOfVersion(m, oid, i, d, r)
    ensures r in References(m, others, d)
  {
    var v := Versions(m, oid)[i];
    assert NamesData(m[v.at], r.1, d);
  }

  // ---------------------------------------------------------------- the counting

  ghost predicate Counted(counted: map<DataId, set<Ref>>, d: DataId, r: Ref) {
    d in counted && r in counted[d]
  }

  ghost predicate CountsMatch(superseded: map<DataId, nat>, counted: map<DataId, set<Ref>>) {
    && superseded.Keys == counted.Keys
    && forall d :: d in superseded ==> superseded[d] == |counted[d]| && superseded[d] > 0
  }

  /** r is the row of one of the first n versions, superseded, and names d */
  ghost predicate SupersededUpTo(m: InSync, oid: ObjectId, n: nat, d: DataId, r: Ref, below: nat, kept: nat) {
    exists k: nat :: k < n && SupersededAt(m, oid, k, below, kept) && RowOfVersion(m, oid, k, d, r)
  }

  lemma SupersededUpToNext(m: InSync, oid: ObjectId, n: nat, d: DataId, r: Ref, below: nat, kept: nat)
    ensures SupersededUpTo(m, oid, n + 1, d, r, below, kept) <==>
            || SupersededUpTo(m, oid, n, d, r, below, kept)
            || (SupersededAt(m, oid, n, below, kept) && RowOfVersion(m, oid, n, d, r))
  {
  }

  lemma NotYetCounted(m: InSync, oid: ObjectId, n: nat, d: DataId, r: Ref, below: nat, kept: nat)
    requires UniqueTags(m) && RowOfVersion(m, oid, n, d, r)
    ensures !SupersededUpTo(m, oid, n, d, r, below, kept)
  {
    if SupersededUpTo(m, oid, n, d, r, below, kept) {
      var k: nat :| k < n && SupersededAt(m, oid, k, below, kept) && RowOfVersion(m, oid, k, d, r);
      RowIdentifies(m, oid, n, oid, k, d, d, r);
    }
  }

  ghost predicate NoneCounted(m: InSync, counted: map<DataId, set<Ref>>, oid: ObjectId, below: nat, kept: nat) {
    forall d, r :: Counted(counted, d, r) ==> !SupersededRow(m, oid, d, r, below, kept)
  }

  /** the superseded rows of the object are counted as well */
  ghost predicate AddsObject(m: InSync, was: map<DataId, set<Ref>>, counted: map<DataId, set<Ref>>, oid: ObjectId,
                             below: nat, kept: nat) {
    forall d, r :: Counted(counted, d, r) <==> Counted(was, d, r) || SupersededRow(m, oid, d, r, below, kept)
  }

  ghost predicate AddsUpTo(m: InSync, was: map<DataId, set<Ref>>, counted: map<DataId, set<Ref>>, oid: ObjectId,
                           n: nat, below: nat, kept: nat) {
    forall d, r :: Counted(counted, d, r) <==> Counted(was, d, r) || SupersededUpTo(m, oid, n, d, r, below, kept)
  }

  /** the next version is not superseded, or its row is counted now */
  lemma AddsNext(m: InSync, was: map<DataId, set<Ref>>, b: map<DataId, set<Ref>>, counted: map<DataId, set<Ref>>,
                 oid: ObjectId, n: nat, below: nat, kept: nat)
    requires AddsUpTo(m, was, b, oid, n, below, kept)
    requires forall d, r :: Counted(counted, d, r) <==>
                            || Counted(b, d, r)
                            || (SupersededAt(m, oid, n, below, kept) && RowOfVersion(m, oid, n, d, r))
    ensures AddsUpTo(m, was, counted, oid, n + 1, below, kept)
  {
    forall d, r
      ensures Counted(counted, d, r) <==> Counted(was, d, r) || SupersededUpTo(m, oid, n + 1, d, r, below, kept)
    {
      SupersededUpToNext(m, oid, n, d, r, below, kept);
    }
  }

  /** the row of the i-th version is counted when the version is superseded */
  method CountVersion(m: InSync, oid: ObjectId, i: nat, v: Version, carrying: nat, below: nat, kept: nat,
                      was: map<DataId, nat>, ghost wasCounted: map<DataId, set<Ref>>)
    returns (superseded: map<DataId, nat>, ghost counted: map<DataId, set<Ref>>)
    requires i < |Versions(m, oid)| && Versions(m, oid)[i] == v && CountsMatch(was, wasCounted)
    requires carrying == CarryingCount(Versions(m, oid)[..i], below)
    requires forall d, r :: SupersededAt(m, oid, i, below, kept) && RowOfVersion(m, oid, i, d, r) ==>
                              !Counted(wasCounted, d, r)
    ensures CountsMatch(superseded, counted)
    ensures forall d, r :: Counted(counted, d, r) <==>
                           || Counted(wasCounted, d, r)
                           || (SupersededAt(m, oid, i, below, kept) && RowOfVersion(m, oid, i, d, r))
  {
    superseded, counted := was, wasCounted;
    VersionAtIndex(m, oid, i);
    if v.data.Some? && v.at < below && carrying >= kept {
      ghost var r := RefOf(m, oid, v);
      assert SupersededAt(m, oid, i, below, kept) && RowOfVersion(m, oid, i, v.data.value, r);
      superseded, counted := AddOne(superseded, counted, v.data.value, r);
    }
  }

  method CountObject(m: InSync, oid: ObjectId, head: nat, below: nat, kept: nat,
                     was: map<DataId, nat>, ghost wasCounted: map<DataId, set<Ref>>)
    returns (superseded: map<DataId, nat>, ghost counted: map<DataId, set<Ref>>)
    requires UniqueTags(m) && IsHead(m, oid, head) && CountsMatch(was, wasCounted)
    requires NoneCounted(m, wasCounted, oid, below, kept)
    ensures CountsMatch(superseded, counted) && AddsObject(m, wasCounted, counted, oid, below, kept)
  {
    superseded, counted := was, wasCounted;
    var carrying := 0;
    var vs := ObjectVersions(m, oid, head);
    for i := 0 to |vs|
      invariant carrying == CarryingCount(vs[..i], below)
      invariant CountsMatch(superseded, counted)
      invariant AddsUpTo(m, wasCounted, counted, oid, i, below, kept)
    {
      ghost var before := counted;
      assert vs[..i + 1][..i] == vs[..i];
      NextUncounted(m, wasCounted, counted, oid, i, below, kept);
      superseded, counted := CountVersion(m, oid, i, vs[i], carrying, below, kept, superseded, counted);
      AddsNext(m, wasCounted, before, counted, oid, i, below, kept);
      if vs[i].data.Some? && vs[i].at < below {
        carrying := carrying + 1;
      }
    }
  }

  lemma NextUncounted(m: InSync, was: map<DataId, set<Ref>>, counted: map<DataId, set<Ref>>, oid: ObjectId, n: nat,
                      below: nat, kept: nat)
    requires UniqueTags(m) && NoneCounted(m, was, oid, below, kept) && AddsUpTo(m, was, counted, oid, n, below, kept)
    ensures forall d, r :: SupersededAt(m, oid, n, below, kept) && RowOfVersion(m, oid, n, d, r) ==>
                             !Counted(counted, d, r)
  {
    forall d, r | SupersededAt(m, oid, n, below, kept) && RowOfVersion(m, oid, n, d, r)
      ensures !Counted(counted, d, r)
    {
      assert SupersededRow(m, oid, d, r, below, kept);
      NotYetCounted(m, oid, n, d, r, below, kept);
    }
  }

  method AddOne(was: map<DataId, nat>, ghost wasCounted: map<DataId, set<Ref>>, d: DataId, ghost r: Ref)
    returns (superseded: map<DataId, nat>, ghost counted: map<DataId, set<Ref>>)
    requires CountsMatch(was, wasCounted) && !Counted(wasCounted, d, r)
    ensures CountsMatch(superseded, counted)
    ensures forall d', r' :: Counted(counted, d', r') <==> Counted(wasCounted, d', r') || (d' == d && r' == r)
  {
    superseded := was[d := (if d in was then was[d] else 0) + 1];
    counted := wasCounted[d := (if d in wasCounted then wasCounted[d] else {}) + {r}];
  }

  ghost predicate SupersededOf(m: InSync, objects: set<ObjectId>, d: DataId, r: Ref, below: nat, kept: nat) {
    exists oid :: oid in objects && SupersededRow(m, oid, d, r, below, kept)
  }

  /** exactly the superseded rows of the objects done */
  ghost predicate CountedFor(m: InSync, counted: map<DataId, set<Ref>>, objects: set<ObjectId>, below: nat, kept: nat) {
    forall d, r :: Counted(counted, d, r) <==> SupersededOf(m, objects, d, r, below, kept)
  }

  lemma NoneCountedYet(m: InSync, counted: map<DataId, set<Ref>>, objects: set<ObjectId>, oid: ObjectId, below: nat,
                       kept: nat)
    requires UniqueTags(m) && CountedFor(m, counted, objects, below, kept) && oid !in objects
    ensures NoneCounted(m, counted, oid, below, kept)
  {
    forall d, r | Counted(counted, d, r)
      ensures !SupersededRow(m, oid, d, r, below, kept)
    {
      if SupersededRow(m, oid, d, r, below, kept) {
        var oid' :| oid' in objects && SupersededRow(m, oid', d, r, below, kept);
        ObjectOfRow(m, oid, oid', d, r, below, kept);
      }
    }
  }

  lemma CountedNext(m: InSync, was: map<DataId, set<Ref>>, counted: map<DataId, set<Ref>>, objects: set<ObjectId>,
                    oid: ObjectId, below: nat, kept: nat)
    requires CountedFor(m, was, objects, below, kept) && AddsObject(m, was, counted, oid, below, kept)
    ensures CountedFor(m, counted, objects + {oid}, below, kept)
  {
    forall d, r
      ensures Counted(counted, d, r) <==> SupersededOf(m, objects + {oid}, d, r, below, kept)
    {
      if SupersededRow(m, oid, d, r, below, kept) {
        assert oid in objects + {oid};
      }
      if SupersededOf(m, objects, d, r, below, kept) {
        var o :| o in objects && SupersededRow(m, o, d, r, below, kept);
        assert o in objects + {oid};
      }
    }
  }

  lemma AllCounted(m: InSync, counted: map<DataId, set<Ref>>, heads: map<ObjectId, nat>, below: nat, kept: nat)
    requires CountedFor(m, counted, heads.Keys, below, kept) && forall oid :: oid in heads <==> HasObject(m, oid)
    ensures forall d, r :: Counted(counted, d, r) <==> Superseded(m, d, r, below, kept)
  {
    forall d, r | Superseded(m, d, r, below, kept)
      ensures Counted(counted, d, r)
    {
      var oid :| SupersededRow(m, oid, d, r, below, kept);
      RowHasObject(m, oid, d, r, below, kept);
      assert SupersededOf(m, heads.Keys, d, r, below, kept);
    }
  }

  ghost predicate HasSuperseded(m: InSync, d: DataId, below: nat, kept: nat) {
    exists r :: Superseded(m, d, r, below, kept)
  }

  lemma CountedKeys(m: InSync, superseded: map<DataId, nat>, counted: map<DataId, set<Ref>>, below: nat, kept: nat)
    requires CountsMatch(superseded, counted)
    requires forall d, r :: Counted(counted, d, r) <==> Superseded(m, d, r, below, kept)
    ensures forall d :: d in superseded <==> HasSuperseded(m, d, below, kept)
  {
    forall d
      ensures d in superseded <==> HasSuperseded(m, d, below, kept)
    {
      if d in superseded {
        assert counted[d] != {};
        var r :| r in counted[d];
        assert Counted(counted, d, r);
      }
    }
  }

  method CountSuperseded(m: InSync, below: nat, kept: nat)
    returns (superseded: map<DataId, nat>, ghost counted: map<DataId, set<Ref>>)
    requires UniqueTags(m)
    ensures CountsMatch(superseded, counted)
    ensures forall d, r :: Counted(counted, d, r) <==> Superseded(m, d, r, below, kept)
    ensures forall d :: d in superseded <==> HasSuperseded(m, d, below, kept)
  {
    superseded, counted := map[], map[];
    var heads := CollectObjectHeads(m);
    var left := heads.Keys;
    while left != {}
      invariant left <= heads.Keys && CountsMatch(superseded, counted)
      invariant CountedFor(m, counted, heads.Keys - left, below, kept)
      decreases left
    {
      var oid :| oid in left;
      ghost var was, done := counted, heads.Keys - left;
      NoneCountedYet(m, counted, done, oid, below, kept);
      superseded, counted := CountObject(m, oid, heads[oid], below, kept, superseded, counted);
      CountedNext(m, was, counted, done, oid, below, kept);
      DoneMore(heads.Keys, left, oid);
      left := left - {oid};
    }
    assert heads.Keys - left == heads.Keys;
    AllCounted(m, counted, heads, below, kept);
    CountedKeys(m, superseded, counted, below, kept);
  }

  // ---------------------------------------------------------------- what goes

  type DataTable = map<DataId, DataState>

  /** the policy lets the data go: it is not pruned yet and only superseded versions name it */
  ghost predicate LetGo(m: InSync, others: seq<OtherRow>, table: DataTable, d: DataId, below: nat, kept: nat) {
    && kept != 0 && kept != KEEP_ALL_DATA_VERSIONS
    && d in table && table[d] != Pruned
    && References(m, others, d) != {}
    && forall r :: r in References(m, others, d) ==> Superseded(m, d, r, below, kept)
  }

  method SupersededData(m: InSync, others: seq<OtherRow>, table: DataTable, below: nat, kept: nat)
    returns (ret: set<DataId>)
    requires TableTags(m, others)
    ensures forall d :: d in ret <==> LetGo(m, others, table, d, below, kept)
  {
    ret := {};
    if kept != 0 && kept != KEEP_ALL_DATA_VERSIONS {
      var superseded, counted := CountSuperseded(m, below, kept);
      ret := set d | d in superseded && d in table && table[d] != Pruned &&
             ReferenceCount(m, others, d) == superseded[d];
      forall d
        ensures d in ret <==> LetGo(m, others, table, d, below, kept)
      {
        CountDecides(m, others, table, d, below, kept, superseded, counted);
      }
    }
  }

  lemma CountedAreReferences(m: InSync, others: seq<OtherRow>, d: DataId, below: nat, kept: nat, rows: set<Ref>)
    requires forall r :: r in rows <==> Superseded(m, d, r, below, kept)
    ensures rows <= References(m, others, d)
  {
    forall r | r in rows
      ensures r in References(m, others, d)
    {
      var oid :| SupersededRow(m, oid, d, r, below, kept);
      var i: nat :| SupersededAt(m, oid, i, below, kept) && RowOfVersion(m, oid, i, d, r);
      RowIsReference(m, others, oid, i, d, r);
    }
  }

  lemma SameCount(m: InSync, refs: set<Ref>, d: DataId, below: nat, kept: nat, rows: set<Ref>)
    requires rows <= refs && forall r :: r in rows <==> Superseded(m, d, r, below, kept)
    ensures |refs| == |rows| <==> forall r :: r in refs ==> Superseded(m, d, r, below, kept)
  {
    SubsetSize(rows, refs);
    if |refs| != |rows| {
      assert exists r :: r in refs && r !in rows;
    }
  }

  /** as many references as superseded versions: then every reference is one of them */
  lemma CountDecides(m: InSync, others: seq<OtherRow>, table: DataTable, d: DataId, below: nat, kept: nat,
                     superseded: map<DataId, nat>, counted: map<DataId, set<Ref>>)
    requires TableTags(m, others) && CountsMatch(superseded, counted)
    requires forall d, r :: Counted(counted, d, r) <==> Superseded(m, d, r, below, kept)
    requires kept != 0 && kept != KEEP_ALL_DATA_VERSIONS
    ensures (d in superseded && d in table && table[d] != Pruned && ReferenceCount(m, others, d) == superseded[d])
            <==> LetGo(m, others, table, d, below, kept)
  {
    var rows := if d in superseded then counted[d] else {};
    forall r
      ensures r in rows <==> Superseded(m, d, r, below, kept)
    {
      assert r in rows <==> Counted(counted, d, r);
    }
    CountedAreReferences(m, others, d, below, kept, rows);
    SameCount(m, References(m, others, d), d, below, kept, rows);
  }

  /** the versions before the i-th that carry data below the cut */
  ghost function CarryingBefore(vs: seq<Version>, i: nat, below: nat): set<nat>
    requires i <= |vs|
  {
    set j: nat | j < i && vs[j].data.Some? && vs[j].at < below
  }

  lemma {:induction false} CarryingCounts(vs: seq<Version>, i: nat, below: nat)
    requires i <= |vs|
    ensures CarryingCount(vs[..i], below) == |CarryingBefore(vs, i, below)|
  {
    if i > 0 {
      CarryingCounts(vs, i - 1, below);
      assert vs[..i][..i - 1] == vs[..i - 1];
      var before := CarryingBefore(vs, i - 1, below);
      assert CarryingBefore(vs, i, below) == if Carrying(vs[i - 1], below) then before + {i - 1} else before;
    }
  }

  /** a version is superseded exactly when it carries data below the cut and as many newer ones as are kept do */
  lemma SupersededAtIff(m: InSync, oid: ObjectId, i: nat, below: nat, kept: nat)
    ensures SupersededAt(m, oid, i, below, kept) <==>
            var vs := Versions(m, oid);
            i < |vs| && vs[i].data.Some? && vs[i].at < below && |CarryingBefore(vs, i, below)| >= kept
  {
    if i < |Versions(m, oid)| {
      CarryingCounts(Versions(m, oid), i, below);
    }
  }

  /** the newest kept data-carrying versions of every object below the cut keep their data */
  lemma NewestKeepData(m: InSync, others: seq<OtherRow>, table: DataTable, oid: ObjectId, i: nat, d: DataId,
                       below: nat, kept: nat)
    requires TableTags(m, others) && i < |Versions(m, oid)|
    requires Versions(m, oid)[i].data == Some(d)
    requires |CarryingBefore(Versions(m, oid), i, below)| < kept
    ensures !LetGo(m, others, table, d, below, kept)
  {
    CarryingCounts(Versions(m, oid), i, below);
    VersionAtIndex(m, oid, i);
    var r := RefOf(m, oid, Versions(m, oid)[i]);
    RowIsReference(m, others, oid, i, d, r);
    if Superseded(m, d, r, below, kept) {
      var oid' :| SupersededRow(m, oid', d, r, below, kept);
      var i': nat :| SupersededAt(m, oid', i', below, kept) && RowOfVersion(m, oid', i', d, r);
      RowIdentifies(m, oid, i, oid', i', d, d, r);
    }
  }

  /** a row of an in sync record is superseded only below the cut */
  lemma SupersededBelow(m: InSync, d: DataId, r: Ref, below: nat, kept: nat)
    requires Superseded(m, d, r, below, kept)
    ensures exists s :: s in m && s < below && m[s].tag == r.0
  {
    var oid :| SupersededRow(m, oid, d, r, below, kept);
    var i: nat :| SupersededAt(m, oid, i, below, kept) && RowOfVersion(m, oid, i, d, r);
    assert Versions(m, oid)[i].at in m;
  }

  /** and so does whatever a record names that is not in sync, or not below the cut */
  lemma OtherReferencesKeepData(m: InSync, others: seq<OtherRow>, table: DataTable, row: Row, i: nat, d: DataId,
                                below: nat, kept: nat)
    requires TableTags(m, others) && NamesData(row, i, d)
    requires (exists s :: s in m && m[s] == row && below <= s) ||
             (exists k :: 0 <= k < |others| && others[k].row == row)
    ensures !LetGo(m, others, table, d, below, kept)
  {
    var r := (row.tag, i);
    assert r in References(m, others, d);
    if Superseded(m, d, r, below, kept) {
      SupersededBelow(m, d, r, below, kept);
    }
  }
}
