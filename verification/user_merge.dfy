/**
 * The merge of user changes (spsync/core/user_merge.cpp): a fold over the user change
 * records in storage order, whose concurrency decisions are made on the tree of
 * last-seen-special references.
 */
module UserMerge {
  import opened Common
  import opened Octets

  type Tag = OctetVector

  type UserId = nat

  /** every special record's tag to the tag of its causal parent; the empty tag ends a walk */
  type ParentMap = map<Tag, Tag>

  datatype Access = NoAccess | Granted(rights: nat)

  datatype UserAccess = UserAccess(user: UserId, access: Access)

  datatype Entry = Entry(full: bool, changes: seq<UserAccess>, tag: Tag, parent: Tag)

  datatype Member = Member(access: UserAccess, tag: Tag, parent: Tag)

  datatype Removal = Removal(tag: Tag, parent: Tag)

  // ---------------------------------------------------------------- the causal past

  function Next(t: Tag, parents: ParentMap): Tag {
    if t != [] && t in parents then parents[t] else []
  }

  function Walk(from: Tag, n: nat, parents: ParentMap): Tag {
    if n == 0 then from else Next(Walk(from, n - 1, parents), parents)
  }

  /** a is reached from the given parent along the references, in any number of steps */
  ghost predicate InPast(a: Tag, from: Tag, parents: ParentMap) {
    a != [] && exists n: nat :: Walk(from, n, parents) == a
  }

  ghost predicate Sees(e: Entry, f: Entry, parents: ParentMap) {
    InPast(f.tag, e.parent, parents)
  }

  lemma {:induction false} WalkAdd(from: Tag, i: nat, m: nat, parents: ParentMap)
    ensures Walk(from, i + m, parents) == Walk(Walk(from, i, parents), m, parents)
  {
    if m > 0 {
      WalkAdd(from, i, m - 1, parents);
    }
  }

  lemma {:induction false} WalkEnded(from: Tag, i: nat, j: nat, parents: ParentMap)
    requires i <= j && Walk(from, i, parents) == []
    ensures Walk(from, j, parents) == []
  {
    if i < j {
      WalkEnded(from, i, j - 1, parents);
    }
  }

  ghost function Visited(from: Tag, n: nat, parents: ParentMap): set<Tag> {
    set i: nat | i < n :: Walk(from, i, parents)
  }

  /** distinct steps make the set of their tags as big as the walk is long */
  lemma {:induction false} VisitedCount(from: Tag, n: nat, parents: ParentMap)
    requires forall i: nat, j: nat :: i < j < n ==> Walk(from, i, parents) != Walk(from, j, parents)
    ensures |Visited(from, n, parents)| == n
  {
    if n > 0 {
      VisitedCount(from, n - 1, parents);
      assert Walk(from, n - 1, parents) !in Visited(from, n - 1, parents);
      assert Visited(from, n, parents) == Visited(from, n - 1, parents) + {Walk(from, n - 1, parents)};
    }
  }

  /** a tag first met after n steps is met within the size of the map, cycles or not */
  lemma FirstMetWithinSize(a: Tag, from: Tag, n: nat, parents: ParentMap)
    requires a != [] && Walk(from, n, parents) == a
    requires forall k: nat :: k < n ==> Walk(from, k, parents) != a
    ensures n <= |parents|
  {
    forall i: nat, j: nat | i < j < n
      ensures Walk(from, i, parents) != Walk(from, j, parents)
    {
      if Walk(from, i, parents) == Walk(from, j, parents) {
        WalkAdd(from, i, n - j, parents);
        WalkAdd(from, j, n - j, parents);
      }
    }
    forall i: nat | i < n
      ensures Walk(from, i, parents) in parents
    {
      if Walk(from, i, parents) !in parents {
        assert Walk(from, i + 1, parents) == [];
        WalkEnded(from, i + 1, n, parents);
      }
    }
    VisitedCount(from, n, parents);
    SubsetSize(Visited(from, n, parents), parents.Keys);
  }

  lemma FirstMet(a: Tag, from: Tag, n: nat, parents: ParentMap) returns (first: nat)
    requires Walk(from, n, parents) == a
    ensures first <= n && Walk(from, first, parents) == a
    ensures forall k: nat :: k < first ==> Walk(from, k, parents) != a
  {
    first := 0;
    while Walk(from, first, parents) != a
      invariant first <= n
      invariant forall k: nat :: k < first ==> Walk(from, k, parents) != a
      decreases n - first
    {
      first := first + 1;
    }
  }

  /** the bounded walk decides reachability exactly, on any map */
  method Saw(ancestor: Tag, fromParent: Tag, parents: ParentMap) returns (found: bool)
    ensures found <==> InPast(ancestor, fromParent, parents)
  {
    found := false;
    var step := fromParent;
    var guard := |parents| + 1;
    ghost var n: nat := 0;
    while !found && step != [] && guard != 0
      invariant 0 <= guard && n + guard == |parents| + 1
      invariant found ==> InPast(ancestor, fromParent, parents)
      invariant !found ==> step == Walk(fromParent, n, parents)
      invariant !found ==> forall k: nat :: k < n ==> Walk(fromParent, k, parents) != ancestor
      decreases guard
    {
      guard := guard - 1;
      found := step == ancestor;
      if !found {
        step := if step in parents then parents[step] else [];
      }
      n := n + 1;
    }
    if !found && InPast(ancestor, fromParent, parents) {
      ghost var met: nat :| Walk(fromParent, met, parents) == ancestor;
      ghost var first := FirstMet(ancestor, fromParent, met, parents);
      FirstMetWithinSize(ancestor, fromParent, first, parents);
      if step == [] {
        WalkEnded(fromParent, n, first, parents);
      }
    }
  }

  // ---------------------------------------------------------------- the fold of one user

  /** what the fold keeps of one user: the winning update and the recorded removals */
  datatype Slot = Slot(member: Option<Member>, removals: seq<Removal>)

  const EmptySlot := Slot(None, [])

  ghost function RemovedSlot(s: Slot, e: Entry, parents: ParentMap): Slot {
    Slot(if s.member.Some? && InPast(e.tag, s.member.value.parent, parents) then s.member else None,
         s.removals + [Removal(e.tag, e.parent)])
  }

  ghost predicate Defeated(s: Slot, e: Entry, parents: ParentMap) {
    exists r :: r in s.removals && !InPast(r.tag, e.parent, parents)
  }

  ghost predicate Wins(e: Entry, m: Member, parents: ParentMap) {
    || InPast(m.tag, e.parent, parents)
    || (!InPast(e.tag, m.parent, parents) && Less(e.tag, m.tag))
  }

  ghost function UpdatedSlot(s: Slot, ua: UserAccess, e: Entry, parents: ParentMap): Slot {
    if !Defeated(s, e, parents) && (s.member.Some? ==> Wins(e, s.member.value, parents)) then
      s.(member := Some(Member(ua, e.tag, e.parent)))
    else
      s
  }

  ghost function ChangedSlot(s: Slot, ua: UserAccess, e: Entry, parents: ParentMap): Slot {
    if ua.access == NoAccess then RemovedSlot(s, e, parents) else UpdatedSlot(s, ua, e, parents)
  }

  ghost function AfterChanges(u: UserId, s: Slot, changes: seq<UserAccess>, e: Entry, parents: ParentMap): Slot {
    if changes == [] then s
    else
      var before := AfterChanges(u, s, changes[..|changes| - 1], e, parents);
      var ua := changes[|changes| - 1];
      if ua.user == u then ChangedSlot(before, ua, e, parents) else before
  }

  ghost function SlotAfter(u: UserId, entries: seq<Entry>, parents: ParentMap): Slot {
    if entries == [] then EmptySlot
    else
      var e := entries[|entries| - 1];
      var before := SlotAfter(u, entries[..|entries| - 1], parents);
      AfterChanges(u, if e.full then EmptySlot else before, e.changes, e, parents)
  }

  // ---------------------------------------------------------------- the fold itself

  class FoldState {
    var members: map<UserId, Member>
    var removals: map<UserId, seq<Removal>>

    constructor ()
      ensures members == map[] && removals == map[]
    {
      members, removals := map[], map[];
    }

    ghost function SlotOf(u: UserId): Slot
      reads this
    {
      Slot(if u in members then Some(members[u]) else None, if u in removals then removals[u] else [])
    }

    /** every member is kept under its own user id */
    ghost predicate KeysMatch()
      reads this
    {
      forall u :: u in members ==> members[u].access.user == u
    }

    method ApplyRemoval(kid: UserId, entry: Entry, parents: ParentMap)
      requires KeysMatch()
      modifies this
      ensures SlotOf(kid) == RemovedSlot(old(SlotOf(kid)), entry, parents)
      ensures forall u :: u != kid ==> SlotOf(u) == old(SlotOf(u))
      ensures KeysMatch()
    {
      if kid in members {
        var sawRemoval := Saw(entry.tag, members[kid].parent, parents);
        if !sawRemoval {
          members := members - {kid};
        }
      }
      var recorded := if kid in removals then removals[kid] else [];
      removals := removals[kid := recorded + [Removal(entry.tag, entry.parent)]];
    }

    method ApplyUpdate(kid: UserId, ua: UserAccess, entry: Entry, parents: ParentMap)
      requires KeysMatch() && ua.user == kid
      modifies this
      ensures SlotOf(kid) == UpdatedSlot(old(SlotOf(kid)), ua, entry, parents)
      ensures forall u :: u != kid ==> SlotOf(u) == old(SlotOf(u))
      ensures KeysMatch()
    {
      var defeated := false;
      if kid in removals {
        var rs := removals[kid];
        for i := 0 to |rs|
          invariant defeated <==> exists k :: 0 <= k < i && !InPast(rs[k].tag, entry.parent, parents)
          invariant members == old(members) && removals == old(removals)
        {
          if !defeated {
            var sawIt := Saw(rs[i].tag, entry.parent, parents);
            defeated := !sawIt;
          }
        }
      }
      assert defeated <==> Defeated(SlotOf(kid), entry, parents);
      if !defeated {
        var winner := kid !in members;
        if !winner {
          var sawCurrent := Saw(members[kid].tag, entry.parent, parents);
          if sawCurrent {
            winner := true;
          } else {
            var seen := Saw(entry.tag, members[kid].parent, parents);
            if !seen {
              winner := Less(entry.tag, members[kid].tag);
            }
          }
        }
        if winner {
          members := members[kid := Member(ua, entry.tag, entry.parent)];
        }
      }
    }

    /** one user change record: a full one forgets everything before it */
    method ApplyEntry(entry: Entry, parents: ParentMap)
      requires KeysMatch()
      modifies this
      ensures forall u :: SlotOf(u) ==
                          AfterChanges(u, if entry.full then EmptySlot
                                          else old(SlotOf(u)), entry.changes, entry, parents)
      ensures KeysMatch()
    {
      if entry.full {
        members, removals := map[], map[];
      }
      var changes := entry.changes;
      for k := 0 to |changes|
        invariant KeysMatch()
        invariant forall u :: SlotOf(u) ==
                              AfterChanges(u, if entry.full then EmptySlot
                                              else old(SlotOf(u)), changes[..k], entry, parents)
      {
        var ua := changes[k];
        assert changes[..k + 1][..k] == changes[..k];
        if ua.access == NoAccess {
          ApplyRemoval(ua.user, entry, parents);
        } else {
          ApplyUpdate(ua.user, ua, entry, parents);
        }
      }
      assert changes[..|changes|] == changes;
    }

    /** the members' accesses in the order of the map's keys */
    method Accesses() returns (ret: seq<UserAccess>)
      requires KeysMatch()
      ensures forall i, j :: 0 <= i < j < |ret| ==> ret[i].user < ret[j].user
      ensures forall ua :: ua in ret <==> ua.user in members && members[ua.user].access == ua
    {
      ret := [];
      var left := members.Keys;
      while left != {}
        invariant left <= members.Keys
        invariant forall ua :: ua in ret <==>
                               ua.user in members && ua.user !in left && members[ua.user].access == ua
        invariant forall ua, u :: ua in ret && u in left ==> ua.user < u
        invariant forall i, j :: 0 <= i < j < |ret| ==> ret[i].user < ret[j].user
        decreases left
      {
        var kid := LeastUser(left);
        ret := ret + [members[kid].access];
        left := left - {kid};
      }
    }
  }

  /** the accesses of the members in the order of their user ids */
  ghost predicate Listing(ret: seq<UserAccess>, entries: seq<Entry>, parents: ParentMap) {
    && (forall i, j :: 0 <= i < j < |ret| ==> ret[i].user < ret[j].user)
    && (forall ua :: ua in ret <==>
                     var m := SlotAfter(ua.user, entries, parents).member; m.Some? && m.value.access == ua)
  }

  method MergeUserChanges(entries: seq<Entry>, parents: ParentMap) returns (ret: seq<UserAccess>)
    ensures Listing(ret, entries, parents)
  {
    var state := new FoldState();
    for i := 0 to |entries|
      invariant fresh(state) && state.KeysMatch()
      invariant forall u :: state.SlotOf(u) == SlotAfter(u, entries[..i], parents)
    {
      state.ApplyEntry(entries[i], parents);
      assert entries[..i + 1][..i] == entries[..i];
    }
    assert entries[..|entries|] == entries;
    ret := state.Accesses();
  }

  method LeastUser(users: set<UserId>) returns (least: UserId)
    requires users != {}
    ensures least in users && forall u :: u in users ==> least <= u
  {
    least :| least in users;
    var rest := users - {least};
    while rest != {}
      invariant rest < users && least in users
      invariant forall u :: u in users && u !in rest ==> least <= u
      decreases rest
    {
      var u :| u in rest;
      if u < least {
        least := u;
      }
      rest := rest - {u};
    }
  }
}
