/**
 * What the version list of an object is, said of the records themselves: it starts at the newest
 * record that changes the object and follows the previous-record links to their end. So a history
 * cut keeps exactly the records from the cut on and those that some object's links reach.
 */
module ObjectHistory {
  import opened RecordStorage
  import opened LocalHistory

  ghost predicate Touches(row: Row, oid: ObjectId) {
    row.content.DataChange? && exists i :: 0 <= i < |row.content.changes| && row.content.changes[i].oid == oid
  }

  /** the change of the object in the record: the first one, should there be several */
  ghost predicate ChangeOf(row: Row, oid: ObjectId, c: ObjectChange) {
    && row.content.DataChange? && c.oid == oid
    && exists i :: 0 <= i < |row.content.changes| && row.content.changes[i] == c && FirstAt(row.content.changes, oid, i)
  }

  ghost predicate FirstAt(cs: seq<ObjectChange>, oid: ObjectId, i: nat) {
    forall j :: 0 <= j < i && j < |cs| ==> cs[j].oid != oid
  }

  ghost predicate Newest(m: InSync, oid: ObjectId, s: nat) {
    s in m && Touches(m[s], oid) && forall t :: t in m && Touches(m[t], oid) ==> t <= s
  }

  /** the version tells of a record that changes the object, and of its change */
  ghost predicate Tells(m: InSync, oid: ObjectId, v: Version) {
    v.at in m && v.tag == m[v.at].tag && ChangeOf(m[v.at], oid, ObjectChange(oid, v.previous, v.data))
  }

  ghost predicate Dangles(m: InSync, oid: ObjectId, tag: Tag) {
    tag == [] || forall s :: s in m && m[s].tag == tag ==> !Touches(m[s], oid)
  }

  ghost predicate HasTag(vs: seq<Version>, tag: Tag) {
    exists i :: 0 <= i < |vs| && vs[i].tag == tag
  }

  /** from the newest record along the links: to a record without one, to one that dangles, or into the list again */
  ghost predicate IsHistory(m: InSync, oid: ObjectId, vs: seq<Version>) {
    && (vs == [] ==> forall s :: s in m ==> !Touches(m[s], oid))
    && (vs != [] ==> Newest(m, oid, vs[0].at))
    && (forall i :: 0 <= i < |vs| ==> Tells(m, oid, vs[i]))
    && Linked(vs)
    && (forall i, j :: 0 <= i < j < |vs| ==> vs[i].tag != vs[j].tag)
    && (vs != [] ==> Dangles(m, oid, vs[|vs| - 1].previous) || HasTag(vs, vs[|vs| - 1].previous))
  }

  ghost predicate Linked(vs: seq<Version>) {
    forall i :: 0 < i < |vs| ==> LinksTo(vs[i - 1], vs[i])
  }

  ghost predicate LinksTo(newer: Version, older: Version) {
    older.tag == newer.previous && newer.previous != []
  }

  // ---------------------------------------------------------------- the list is that history

  lemma TouchedIff(row: Row, oid: ObjectId)
    ensures ChangesObject(row, oid) <==> Touches(row, oid)
  {
    ChangeIndexIsFirst(Changes(row), oid);
  }

  lemma OneChangeOf(row: Row, oid: ObjectId, c: ObjectChange, c': ObjectChange)
    requires ChangeOf(row, oid, c) && ChangeOf(row, oid, c')
    ensures c == c'
  {
    var cs := row.content.changes;
    var i: nat :| 0 <= i < |cs| && cs[i] == c && FirstAt(cs, oid, i);
    var j: nat :| 0 <= j < |cs| && cs[j] == c' && FirstAt(cs, oid, j);
  }

  lemma VersionTells(m: InSync, oid: ObjectId, v: Version)
    ensures IsVersion(m, oid, v) ==> Tells(m, oid, v)
  {
    if IsVersion(m, oid, v) {
      var cs := Changes(m[v.at]);
      ChangeIndexIsFirst(cs, oid);
      assert FirstAt(cs, oid, ChangeIndex(cs, oid));
    }
  }

  /** the end of a list that was walked with some tags visited before it */
  ghost predicate EndsWell(m: InSync, oid: ObjectId, vs: seq<Version>, visited: set<Tag>) {
    vs != [] ==>
      var last := vs[|vs| - 1].previous; Dangles(m, oid, last) || HasTag(vs, last) || last in visited
  }

  lemma {:induction false} WalkFollows(m: InSync, oid: ObjectId, v: Version, visited: set<Tag>)
    requires IsVersion(m, oid, v) && v.tag !in visited
    ensures var vs := VersionsFrom(m, oid, v, visited);
            vs != [] && vs[0] == v && Linked(vs) && EndsWell(m, oid, vs, visited)
    decreases TagsOf(m) - visited
  {
    assert v.tag in TagsOf(m);
    var vs := VersionsFrom(m, oid, v, visited);
    var next := RecordStorage.Linked(m, oid, v.previous);
    if next.None? {
      forall s | s in m && m[s].tag == v.previous && v.previous != []
        ensures !Touches(m[s], oid)
      {
        TouchedIff(m[s], oid);
      }
    } else if next.value.tag in visited + {v.tag} {
      assert vs == [v];
    } else {
      WalkFollows(m, oid, next.value, visited + {v.tag});
      WalkExtends(m, oid, v, VersionsFrom(m, oid, next.value, visited + {v.tag}), visited);
    }
  }

  lemma WalkExtends(m: InSync, oid: ObjectId, v: Version, rest: seq<Version>, visited: set<Tag>)
    requires rest != [] && LinksTo(v, rest[0]) && Linked(rest) && EndsWell(m, oid, rest, visited + {v.tag})
    ensures Linked([v] + rest) && EndsWell(m, oid, [v] + rest, visited)
  {
    var vs := [v] + rest;
    forall i | 0 < i < |vs|
      ensures LinksTo(vs[i - 1], vs[i])
    {
      if i > 1 {
        assert LinksTo(rest[i - 2], rest[i - 1]);
      }
    }
    var last := rest[|rest| - 1].previous;
    if last == v.tag {
      assert vs[0].tag == last;
    } else if HasTag(rest, last) {
      var i :| 0 <= i < |rest| && rest[i].tag == last;
      assert vs[i + 1].tag == last;
    }
  }

  lemma VersionsAreHistory(m: InSync, oid: ObjectId)
    ensures IsHistory(m, oid, Versions(m, oid))
  {
    var vs := Versions(m, oid);
    VersionsProperties(m, oid);
    forall s
      ensures s in m ==> (ChangesObject(m[s], oid) <==> Touches(m[s], oid))
    {
      if s in m {
        TouchedIff(m[s], oid);
      }
    }
    forall i | 0 <= i < |vs|
      ensures Tells(m, oid, vs[i])
    {
      assert vs[i] in vs;
      VersionTells(m, oid, vs[i]);
    }
    if HeadOf(m, oid).Some? {
      WalkFollows(m, oid, VersionAt(m, oid, HeadOf(m, oid).value), {});
    } else {
      forall s | s in m
        ensures !Touches(m[s], oid)
      {
        if ChangesObject(m[s], oid) {
          HeadExists(m, oid, s);
        }
      }
    }
  }

  // ---------------------------------------------------------------- what the links reach

  /** the record s of the object names the record t as the one before it */
  ghost predicate Names(m: InSync, oid: ObjectId, s: nat, t: nat) {
    && s in m && t in m && m[t].tag != [] && Touches(m[t], oid)
    && exists c :: ChangeOf(m[s], oid, c) && c.previous == m[t].tag
  }

  /** records from the object's newest one on, each named by the one before */
  ghost predicate Path(m: InSync, oid: ObjectId, path: seq<nat>) {
    && path != [] && Newest(m, oid, path[0])
    && forall i :: 0 < i < |path| ==> Names(m, oid, path[i - 1], path[i])
  }

  ghost predicate Reached(m: InSync, oid: ObjectId, s: nat) {
    exists path :: Path(m, oid, path) && path[|path| - 1] == s
  }

  ghost predicate Lists(vs: seq<Version>, s: nat) {
    exists i :: 0 <= i < |vs| && vs[i].at == s
  }

  /** a record that a listed one names is listed */
  lemma NamedIsListed(m: InSync, oid: ObjectId, vs: seq<Version>, s: nat, t: nat)
    requires UniqueTags(m) && IsHistory(m, oid, vs) && Lists(vs, s) && Names(m, oid, s, t)
    ensures Lists(vs, t)
  {
    var i :| 0 <= i < |vs| && vs[i].at == s;
    var c :| ChangeOf(m[s], oid, c) && c.previous == m[t].tag;
    OneChangeOf(m[s], oid, c, ObjectChange(oid, vs[i].previous, vs[i].data));
    assert !Dangles(m, oid, vs[i].previous);
    if i + 1 < |vs| {
      assert LinksTo(vs[i + 1 - 1], vs[i + 1]);
      assert Tells(m, oid, vs[i + 1]) && vs[i + 1].at == t;
    } else {
      var j :| 0 <= j < |vs| && vs[j].tag == vs[i].previous;
      assert Tells(m, oid, vs[j]) && vs[j].at == t;
    }
  }

  lemma {:induction false} PathIsListed(m: InSync, oid: ObjectId, vs: seq<Version>, path: seq<nat>)
    requires UniqueTags(m) && IsHistory(m, oid, vs) && Path(m, oid, path)
    ensures Lists(vs, path[|path| - 1])
  {
    var n := |path| - 1;
    if n == 0 {
      assert vs != [] && vs[0].at == path[0];
    } else {
      assert Names(m, oid, path[n - 1], path[n]);
      var before := path[..n];
      assert Path(m, oid, before) by {
        forall i | 0 < i < n
          ensures Names(m, oid, before[i - 1], before[i])
        {
          assert Names(m, oid, path[i - 1], path[i]);
        }
      }
      PathIsListed(m, oid, vs, before);
      NamedIsListed(m, oid, vs, path[n - 1], path[n]);
    }
  }

  lemma {:induction false} ListedIsReached(m: InSync, oid: ObjectId, vs: seq<Version>, i: nat) returns (path: seq<nat>)
    requires UniqueTags(m) && IsHistory(m, oid, vs) && i < |vs|
    ensures Path(m, oid, path) && path[|path| - 1] == vs[i].at
  {
    if i == 0 {
      path := [vs[0].at];
    } else {
      var before := ListedIsReached(m, oid, vs, i - 1);
      path := before + [vs[i].at];
      assert LinksTo(vs[i - 1], vs[i]) && Tells(m, oid, vs[i - 1]) && Tells(m, oid, vs[i]);
      assert Names(m, oid, vs[i - 1].at, vs[i].at);
      forall j | 0 < j < |path|
        ensures Names(m, oid, path[j - 1], path[j])
      {
        if j < |before| {
          assert Names(m, oid, before[j - 1], before[j]);
        }
      }
    }
  }

  /** the versions of an object are exactly the records that its links reach, each once */
  lemma VersionsReach(m: InSync, oid: ObjectId, s: nat)
    requires UniqueTags(m)
    ensures Lists(Versions(m, oid), s) <==> Reached(m, oid, s)
  {
    VersionsAreHistory(m, oid);
    if Lists(Versions(m, oid), s) {
      var i: nat :| 0 <= i < |Versions(m, oid)| && Versions(m, oid)[i].at == s;
      var path := ListedIsReached(m, oid, Versions(m, oid), i);
    }
    if Reached(m, oid, s) {
      var path :| Path(m, oid, path) && path[|path| - 1] == s;
      PathIsListed(m, oid, Versions(m, oid), path);
    }
  }

  /** there is one such list: the newest record and the links determine it */
  lemma {:induction false} OneHistory(m: InSync, oid: ObjectId, vs: seq<Version>, ws: seq<Version>, i: nat)
    requires UniqueTags(m) && IsHistory(m, oid, vs) && IsHistory(m, oid, ws) && i < |vs|
    ensures i < |ws| && ws[i] == vs[i]
  {
    if i == 0 {
      assert Tells(m, oid, vs[0]) && ws != [] && Tells(m, oid, ws[0]);
      SameVersion(m, oid, vs[0], ws[0]);
    } else {
      OneHistory(m, oid, vs, ws, i - 1);
      assert LinksTo(vs[i - 1], vs[i]) && Tells(m, oid, vs[i]);
      if i < |ws| {
        assert LinksTo(ws[i - 1], ws[i]) && Tells(m, oid, ws[i]);
        SameVersion(m, oid, vs[i], ws[i]);
      } else {
        assert !Dangles(m, oid, vs[i].tag);
        var j: nat :| 0 <= j < |ws| && ws[j].tag == vs[i].tag;
        OneHistory(m, oid, vs, ws, j);
      }
    }
  }

  lemma SameVersion(m: InSync, oid: ObjectId, v: Version, w: Version)
    requires Tells(m, oid, v) && Tells(m, oid, w) && (v.at == w.at || (UniqueTags(m) && v.tag == w.tag))
    ensures v == w
  {
    OneChangeOf(m[v.at], oid, ObjectChange(oid, v.previous, v.data), ObjectChange(oid, w.previous, w.data));
  }

  // ---------------------------------------------------------------- what a cut keeps

  lemma ReachedOnChain(m: InSync, p: nat, oid: ObjectId, s: nat)
    requires UniqueTags(m) && s in m && s < p && Reached(m, oid, s)
    ensures OnChainBelow(m, p, m[s].tag)
  {
    var vs := Versions(m, oid);
    VersionsReach(m, oid, s);
    VersionsAreHistory(m, oid);
    var i :| 0 <= i < |vs| && vs[i].at == s;
    assert Tells(m, oid, vs[i]) && vs[i] in vs;
    assert ObjectChainBelow(m, oid, p, m[s].tag);
  }

  lemma OnChainReached(m: InSync, p: nat, s: nat) returns (oid: ObjectId)
    requires UniqueTags(m) && s in m && OnChainBelow(m, p, m[s].tag)
    ensures Reached(m, oid, s)
  {
    oid :| ObjectChainBelow(m, oid, p, m[s].tag);
    var vs := Versions(m, oid);
    var v :| v in vs && v.at < p && v.tag == m[s].tag;
    var i :| 0 <= i < |vs| && vs[i] == v;
    VersionsAreHistory(m, oid);
    assert Tells(m, oid, vs[i]) && vs[i].at == s;
    VersionsReach(m, oid, s);
  }

  lemma CutIff(m: InSync, p: nat, s: nat)
    requires UniqueTags(m)
    ensures s in Cut(m, p) <==> s in m && (p <= s || OnChainBelow(m, p, m[s].tag))
    ensures s in Cut(m, p) ==> Cut(m, p)[s] == m[s]
  {
    var keep := set t | t in m && OnChainBelow(m, p, m[t].tag) :: m[t].tag;
    if s in m {
      assert m[s].tag in keep <==> OnChainBelow(m, p, m[s].tag);
    }
  }

  /** a cut keeps the records from there on, and below it exactly those that some object's links reach */
  lemma CutKeepsExactly(m: InSync, p: nat, s: nat)
    requires UniqueTags(m)
    ensures s in Cut(m, p) <==> s in m && (p <= s || exists oid :: Reached(m, oid, s))
    ensures s in Cut(m, p) ==> Cut(m, p)[s] == m[s]
  {
    CutIff(m, p, s);
    if s in m && s < p {
      if oid :| Reached(m, oid, s) {
        ReachedOnChain(m, p, oid, s);
      }
      if OnChainBelow(m, p, m[s].tag) {
        var oid := OnChainReached(m, p, s);
      }
    }
  }

  /** m' is what a cut of m at p leaves */
  ghost predicate KeepsReached(m: InSync, m': InSync, p: nat) {
    && (forall s :: s in m' <==> s in m && (p <= s || exists oid :: Reached(m, oid, s)))
    && (forall s :: s in m' ==> m'[s] == m[s])
  }

  lemma CutKeepsReached(m: InSync, p: nat)
    requires UniqueTags(m)
    ensures KeepsReached(m, Cut(m, p), p)
  {
    forall s
      ensures s in Cut(m, p) <==> s in m && (p <= s || exists oid :: Reached(m, oid, s))
      ensures s in Cut(m, p) ==> Cut(m, p)[s] == m[s]
    {
      CutKeepsExactly(m, p, s);
    }
  }
}
