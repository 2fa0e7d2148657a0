/**
 * What the membership merge promises over causally ordered arrangements of delta entries:
 * who is a member never depends on the arrangement; which update wins does, exactly when no
 * effective update dominates, and with it the access returned where the accesses differ.
 */
module UserMergeOrder {
  import opened Common
  import opened Octets
  import opened UserMerge

  // ---------------------------------------------------------------- the inputs

  ghost predicate OneEach(e: Entry) {
    forall i, j :: 0 <= i < j < |e.changes| ==> e.changes[i].user != e.changes[j].user
  }

  ghost predicate DistinctTags(es: seq<Entry>) {
    forall i, j :: 0 <= i < j < |es| ==> es[i].tag != es[j].tag
  }

  /** nobody comes before an entry of its own causal past */
  ghost predicate Causal(es: seq<Entry>, parents: ParentMap) {
    forall i, j :: 0 <= i <= j < |es| ==> !Sees(es[i], es[j], parents)
  }

  ghost predicate Deltas(es: seq<Entry>, parents: ParentMap) {
    forall e :: e in es ==> !e.full && OneEach(e) && e.tag in parents && parents[e.tag] == e.parent
  }

  ghost predicate Arranged(es: seq<Entry>, parents: ParentMap) {
    Deltas(es, parents) && DistinctTags(es) && Causal(es, parents)
  }

  /** es' holds the same entries in another causal order */
  ghost predicate Rearranged(es: seq<Entry>, es': seq<Entry>, parents: ParentMap) {
    multiset(es') == multiset(es) && Arranged(es', parents)
  }

  ghost predicate Removes(e: Entry, u: UserId) {
    UserAccess(u, NoAccess) in e.changes
  }

  ghost predicate Updates(e: Entry, u: UserId) {
    exists ua :: ua in e.changes && ua.user == u && ua.access != NoAccess
  }

  ghost function AccessIn(e: Entry, u: UserId): (ua: UserAccess)
    requires Updates(e, u)
    ensures ua in e.changes && ua.user == u && ua.access != NoAccess
  {
    var ua :| ua in e.changes && ua.user == u && ua.access != NoAccess;
    ua
  }

  ghost function MemberFrom(e: Entry, u: UserId): Member
    requires Updates(e, u)
  {
    Member(AccessIn(e, u), e.tag, e.parent)
  }

  /** an update of the user that has every removal of the user in its causal past */
  ghost predicate Effective(e: Entry, u: UserId, es: seq<Entry>, parents: ParentMap) {
    && e in es && Updates(e, u)
    && forall r :: r in es && Removes(r, u) ==> Sees(e, r, parents)
  }

  ghost predicate Maximal(e: Entry, u: UserId, es: seq<Entry>, parents: ParentMap) {
    && Effective(e, u, es, parents)
    && forall f :: Effective(f, u, es, parents) ==> !Sees(f, e, parents)
  }

  /** maximal, and with a smaller tag than every effective update it has not seen */
  ghost predicate Dominant(w: Entry, u: UserId, es: seq<Entry>, parents: ParentMap) {
    && Maximal(w, u, es, parents)
    && forall f :: Effective(f, u, es, parents) && f != w && !Sees(w, f, parents) ==> Less(w.tag, f.tag)
  }

  ghost predicate HasEffective(u: UserId, es: seq<Entry>, parents: ParentMap) {
    exists e :: Effective(e, u, es, parents)
  }

  ghost predicate HasDominant(u: UserId, es: seq<Entry>, parents: ParentMap) {
    exists w :: Dominant(w, u, es, parents)
  }

  ghost predicate IsMember(u: UserId, es: seq<Entry>, parents: ParentMap) {
    SlotAfter(u, es, parents).member.Some?
  }

  // ---------------------------------------------------------------- one entry's step

  lemma {:induction false} AfterForeignChanges(u: UserId, s: Slot, changes: seq<UserAccess>, e: Entry,
                                               parents: ParentMap)
    requires forall ua :: ua in changes ==> ua.user != u
    ensures AfterChanges(u, s, changes, e, parents) == s
  {
    if changes != [] {
      AfterForeignChanges(u, s, changes[..|changes| - 1], e, parents);
    }
  }

  lemma {:induction false} AfterOneChange(u: UserId, s: Slot, changes: seq<UserAccess>, k: nat, e: Entry,
                                          parents: ParentMap)
    requires k < |changes| && changes[k].user == u
    requires forall i, j :: 0 <= i < j < |changes| ==> changes[i].user != changes[j].user
    ensures AfterChanges(u, s, changes, e, parents) == ChangedSlot(s, changes[k], e, parents)
  {
    var n := |changes| - 1;
    if k < n {
      AfterOneChange(u, s, changes[..n], k, e, parents);
    } else {
      AfterForeignChanges(u, s, changes[..n], e, parents);
    }
  }

  /** the slot of a user after one more entry, by what the entry says of the user */
  lemma Step(u: UserId, es: seq<Entry>, e: Entry, parents: ParentMap)
    requires !e.full && OneEach(e)
    ensures !(Removes(e, u) && Updates(e, u))
    ensures var s, s' := SlotAfter(u, es, parents), SlotAfter(u, es + [e], parents);
            && (Removes(e, u) ==> s' == RemovedSlot(s, e, parents))
            && (Updates(e, u) ==> s' == UpdatedSlot(s, AccessIn(e, u), e, parents))
            && (!Removes(e, u) && !Updates(e, u) ==> s' == s)
  {
    assert (es + [e])[..|es|] == es;
    var s := SlotAfter(u, es, parents);
    if Removes(e, u) {
      var k :| 0 <= k < |e.changes| && e.changes[k] == UserAccess(u, NoAccess);
      AfterOneChange(u, s, e.changes, k, e, parents);
    } else if Updates(e, u) {
      var ua := AccessIn(e, u);
      var k :| 0 <= k < |e.changes| && e.changes[k] == ua;
      AfterOneChange(u, s, e.changes, k, e, parents);
    } else {
      forall ua | ua in e.changes
        ensures ua.user != u
      {
        assert ua == UserAccess(ua.user, ua.access);
      }
      AfterForeignChanges(u, s, e.changes, e, parents);
    }
  }

  lemma Prefix(es: seq<Entry>, e: Entry, parents: ParentMap)
    requires Arranged(es + [e], parents)
    ensures Arranged(es, parents) && e !in es && !e.full && OneEach(e) && !Sees(e, e, parents)
    ensures forall f :: f in es ==> !Sees(f, e, parents) && f.tag != e.tag
  {
    var all := es + [e];
    assert all[|es|] == e && e in all;
    forall f | f in es
      ensures f in all && !Sees(f, e, parents) && f.tag != e.tag
    {
      var i :| 0 <= i < |es| && es[i] == f;
      assert all[i] == f;
    }
    forall i, j | 0 <= i <= j < |es|
      ensures !Sees(es[i], es[j], parents) && (i < j ==> es[i].tag != es[j].tag)
    {
      assert all[i] == es[i] && all[j] == es[j];
    }
  }

  /** a removal takes every earlier update out; any other entry leaves the earlier ones as they are */
  lemma EffectiveStep(u: UserId, es: seq<Entry>, e: Entry, parents: ParentMap)
    requires Arranged(es + [e], parents)
    ensures Removes(e, u) ==> forall f :: !Effective(f, u, es + [e], parents)
    ensures !Removes(e, u) ==> forall f :: f != e ==>
                                             (Effective(f, u, es + [e], parents) <==> Effective(f, u, es, parents))
  {
    Prefix(es, e, parents);
    var all := es + [e];
    assert forall f :: f in all <==> f in es || f == e;
    Step(u, es, e, parents);
  }

  // ---------------------------------------------------------------- who is a member, with what

  ghost predicate RemovalsRecorded(u: UserId, es: seq<Entry>, parents: ParentMap) {
    var removals := SlotAfter(u, es, parents).removals;
    && (forall e :: e in es && Removes(e, u) ==> Removal(e.tag, e.parent) in removals)
    && (forall r :: r in removals ==> exists e :: e in es && Removes(e, u) && e.tag == r.tag)
  }

  lemma {:induction false} Recorded(u: UserId, es: seq<Entry>, parents: ParentMap)
    requires Deltas(es, parents)
    ensures RemovalsRecorded(u, es, parents)
  {
    if es != [] {
      var e, pre := es[|es| - 1], es[..|es| - 1];
      assert es == pre + [e];
      Recorded(u, pre, parents);
      Step(u, pre, e, parents);
    }
  }

  lemma DefeatedIff(u: UserId, es: seq<Entry>, e: Entry, parents: ParentMap)
    requires Arranged(es + [e], parents) && Updates(e, u)
    ensures Defeated(SlotAfter(u, es, parents), e, parents) <==> !Effective(e, u, es + [e], parents)
  {
    Prefix(es, e, parents);
    Step(u, es, e, parents);
    Recorded(u, es, parents);
    var s := SlotAfter(u, es, parents);
    if Defeated(s, e, parents) {
      var r :| r in s.removals && !InPast(r.tag, e.parent, parents);
      var f :| f in es && Removes(f, u) && f.tag == r.tag;
      assert f in es + [e] && !Sees(e, f, parents);
    } else {
      forall f | f in es + [e] && Removes(f, u)
        ensures Sees(e, f, parents)
      {
        assert Removal(f.tag, f.parent) in s.removals;
      }
    }
  }

  /** a user is a member exactly with an effective update, under the access of a maximal one */
  lemma {:induction false} MemberCharacterised(u: UserId, es: seq<Entry>, parents: ParentMap)
    requires Arranged(es, parents)
    ensures IsMember(u, es, parents) <==> HasEffective(u, es, parents)
    ensures IsMember(u, es, parents) ==>
              exists e :: Maximal(e, u, es, parents) && SlotAfter(u, es, parents).member.value == MemberFrom(e, u)
  {
    if es != [] {
      var n := |es| - 1;
      var e, pre := es[n], es[..n];
      assert es == pre + [e];
      Prefix(pre, e, parents);
      MemberCharacterised(u, pre, parents);
      Step(u, pre, e, parents);
      EffectiveStep(u, pre, e, parents);
      var s := SlotAfter(u, pre, parents);
      if Removes(e, u) {
        if s.member.Some? {
          var w :| Maximal(w, u, pre, parents) && s.member.value == MemberFrom(w, u);
          assert !Sees(w, e, parents);
        }
      } else if Updates(e, u) {
        DefeatedIff(u, pre, e, parents);
        MemberAfterUpdate(u, pre, e, parents);
      } else {
        Unchanged(u, pre, e, parents);
      }
    }
  }

  lemma Unchanged(u: UserId, es: seq<Entry>, e: Entry, parents: ParentMap)
    requires Arranged(es + [e], parents)
    requires !Removes(e, u) && !Effective(e, u, es + [e], parents)
    ensures forall f :: Effective(f, u, es + [e], parents) <==> Effective(f, u, es, parents)
    ensures forall f :: Maximal(f, u, es + [e], parents) <==> Maximal(f, u, es, parents)
    ensures SlotAfter(u, es + [e], parents).member == SlotAfter(u, es, parents).member
  {
    Prefix(es, e, parents);
    EffectiveStep(u, es, e, parents);
    Step(u, es, e, parents);
    if Updates(e, u) {
      DefeatedIff(u, es, e, parents);
    }
  }

  lemma MemberAfterUpdate(u: UserId, es: seq<Entry>, e: Entry, parents: ParentMap)
    requires Arranged(es + [e], parents) && Updates(e, u)
    requires IsMember(u, es, parents) <==> HasEffective(u, es, parents)
    requires IsMember(u, es, parents) ==>
               exists w :: Maximal(w, u, es, parents) && SlotAfter(u, es, parents).member.value == MemberFrom(w, u)
    ensures IsMember(u, es + [e], parents) <==> HasEffective(u, es + [e], parents)
    ensures IsMember(u, es + [e], parents) ==>
              exists w ::
                Maximal(w, u, es + [e], parents) && SlotAfter(u, es + [e], parents).member.value == MemberFrom(w, u)
  {
    Prefix(es, e, parents);
    EffectiveStep(u, es, e, parents);
    Step(u, es, e, parents);
    if Effective(e, u, es + [e], parents) {
      DefeatedIff(u, es, e, parents);
      assert Maximal(e, u, es + [e], parents);
      var s := SlotAfter(u, es, parents);
      if s.member.Some? && !Wins(e, s.member.value, parents) {
        var w :| Maximal(w, u, es, parents) && s.member.value == MemberFrom(w, u);
        assert Maximal(w, u, es + [e], parents);
      }
    } else {
      Unchanged(u, es, e, parents);
    }
  }

  /** the members are the same in every causal arrangement */
  lemma MembershipOrderFree(u: UserId, es: seq<Entry>, es': seq<Entry>, parents: ParentMap)
    requires Arranged(es, parents) && Rearranged(es, es', parents)
    ensures IsMember(u, es, parents) <==> IsMember(u, es', parents)
  {
    MemberCharacterised(u, es, parents);
    MemberCharacterised(u, es', parents);
    SameEffective(u, es, es', parents);
  }

  lemma SameEffective(u: UserId, es: seq<Entry>, es': seq<Entry>, parents: ParentMap)
    requires multiset(es') == multiset(es)
    ensures forall e :: Effective(e, u, es, parents) <==> Effective(e, u, es', parents)
    ensures forall e :: Maximal(e, u, es, parents) <==> Maximal(e, u, es', parents)
    ensures forall e :: Dominant(e, u, es, parents) <==> Dominant(e, u, es', parents)
  {
    assert forall e :: e in es <==> e in multiset(es);
    assert forall e :: e in es' <==> e in multiset(es');
  }

  // ---------------------------------------------------------------- whose access wins

  lemma {:induction false} DominantWins(u: UserId, es: seq<Entry>, w: Entry, parents: ParentMap)
    requires Arranged(es, parents) && Dominant(w, u, es, parents)
    ensures SlotAfter(u, es, parents).member == Some(MemberFrom(w, u))
  {
    var n := |es| - 1;
    var e, pre := es[n], es[..n];
    assert es == pre + [e];
    Prefix(pre, e, parents);
    EffectiveStep(u, pre, e, parents);
    Step(u, pre, e, parents);
    if e == w {
      DefeatedIff(u, pre, e, parents);
      MemberCharacterised(u, pre, parents);
    } else if Effective(e, u, es, parents) {
      DominantWins(u, pre, w, parents);
      LessTotal(w.tag, e.tag);
    } else {
      Unchanged(u, pre, e, parents);
      DominantWins(u, pre, w, parents);
    }
  }

  /** pairwise concurrent effective updates: the smallest tag wins, whatever the order */
  lemma SmallestConcurrentWins(u: UserId, es: seq<Entry>, w: Entry, parents: ParentMap)
    requires Arranged(es, parents) && Effective(w, u, es, parents)
    requires forall e, f :: Effective(e, u, es, parents) && Effective(f, u, es, parents) ==> !Sees(e, f, parents)
    requires forall f :: Effective(f, u, es, parents) && f != w ==> Less(w.tag, f.tag)
    ensures SlotAfter(u, es, parents).member == Some(MemberFrom(w, u))
  {
    DominantWins(u, es, w, parents);
  }

  /** a maximal update with the smallest tag of the maximal ones wins when the others come first */
  lemma {:induction false} LastMaximalWins(u: UserId, a: seq<Entry>, b: seq<Entry>, m: Entry, parents: ParentMap)
    requires Arranged(a + b, parents) && Maximal(m, u, a + b, parents) && m in b
    requires forall f :: Effective(f, u, a + b, parents) && f != m ==> f in a
    requires forall f :: Maximal(f, u, a + b, parents) && f != m ==> Less(m.tag, f.tag)
    ensures SlotAfter(u, a + b, parents).member == Some(MemberFrom(m, u))
  {
    var n := |b| - 1;
    var e, b' := b[n], b[..n];
    var es, pre := a + b, a + b';
    assert es == pre + [e];
    Prefix(pre, e, parents);
    EffectiveStep(u, pre, e, parents);
    Step(u, pre, e, parents);
    if e == m {
      DefeatedIff(u, pre, e, parents);
      MemberCharacterised(u, pre, parents);
      var s := SlotAfter(u, pre, parents);
      if s.member.Some? && !Sees(m, EntryOf(u, pre, parents), parents) {
        assert Maximal(EntryOf(u, pre, parents), u, es, parents);
      }
    } else {
      assert e !in a by {
        assert forall x :: x in a ==> x in pre;
      }
      assert m in b';
      Unchanged(u, pre, e, parents);
      LastMaximalWins(u, a, b', m, parents);
    }
  }

  ghost function EntryOf(u: UserId, es: seq<Entry>, parents: ParentMap): (e: Entry)
    requires Arranged(es, parents) && IsMember(u, es, parents)
    ensures Maximal(e, u, es, parents) && SlotAfter(u, es, parents).member.value == MemberFrom(e, u)
  {
    MemberCharacterised(u, es, parents);
    var e :| Maximal(e, u, es, parents) && SlotAfter(u, es, parents).member.value == MemberFrom(e, u);
    e
  }

  /** an update does not win when a concurrent effective one with a smaller tag comes after it */
  lemma {:induction false} OvertakenLoses(u: UserId, a: seq<Entry>, b: seq<Entry>, m: Entry, x: Entry,
                                          parents: ParentMap)
    requires Arranged(a + b, parents) && m in a && x in b && Effective(x, u, a + b, parents)
    requires Less(x.tag, m.tag)
    ensures var w := SlotAfter(u, a + b, parents).member; w.Some? ==> w.value.tag != m.tag
  {
    var n := |b| - 1;
    var e, b' := b[n], b[..n];
    var es, pre := a + b, a + b';
    assert es == pre + [e];
    assert m in pre;
    Prefix(pre, e, parents);
    EffectiveStep(u, pre, e, parents);
    Step(u, pre, e, parents);
    if e == x {
      DefeatedIff(u, pre, e, parents);
      if IsMember(u, pre, parents) && SlotAfter(u, pre, parents).member.value.tag == m.tag {
        TagsIdentify(pre, m, EntryOf(u, pre, parents));
      }
    } else {
      OvertakenLoses(u, a, b', m, x, parents);
    }
  }

  lemma TagsIdentify(es: seq<Entry>, e: Entry, f: Entry)
    requires DistinctTags(es) && e in es && f in es && e.tag == f.tag
    ensures e == f
  {
  }

  // ---------------------------------------------------------------- rearranging around one entry

  ghost function Keep(es: seq<Entry>, p: Entry -> bool): seq<Entry> {
    if es == [] then []
    else
      var rest := Keep(es[..|es| - 1], p);
      if p(es[|es| - 1]) then rest + [es[|es| - 1]] else rest
  }

  lemma {:induction false} KeepMembers(es: seq<Entry>, p: Entry -> bool)
    ensures forall e :: e in Keep(es, p) <==> e in es && p(e)
  {
    if es != [] {
      KeepMembers(es[..|es| - 1], p);
      assert es == es[..|es| - 1] + [es[|es| - 1]];
    }
  }

  lemma {:induction false} KeepArranged(es: seq<Entry>, p: Entry -> bool, parents: ParentMap)
    requires Arranged(es, parents)
    ensures Arranged(Keep(es, p), parents)
  {
    if es != [] {
      var e, pre := es[|es| - 1], es[..|es| - 1];
      assert es == pre + [e];
      Prefix(pre, e, parents);
      KeepArranged(pre, p, parents);
      KeepMembers(pre, p);
      if p(e) {
        var k := Keep(pre, p);
        assert e in es;
        forall i, j | 0 <= i <= j < |k + [e]|
          ensures !Sees((k + [e])[i], (k + [e])[j], parents) && (i < j ==> (k + [e])[i].tag != (k + [e])[j].tag)
        {
          if j == |k| && i < j {
            assert k[i] in pre;
          }
        }
      }
    }
  }

  lemma {:induction false} KeepSplits(es: seq<Entry>, p: Entry -> bool, q: Entry -> bool)
    requires forall e :: q(e) <==> !p(e)
    ensures multiset(Keep(es, p) + Keep(es, q)) == multiset(es)
  {
    if es != [] {
      var e, pre := es[|es| - 1], es[..|es| - 1];
      assert es == pre + [e];
      KeepSplits(pre, p, q);
      assert Keep(pre, p) + (Keep(pre, q) + [e]) == Keep(pre, p) + Keep(pre, q) + [e];
    }
  }

  lemma JoinArranged(a: seq<Entry>, b: seq<Entry>, parents: ParentMap)
    requires Arranged(a, parents) && Arranged(b, parents)
    requires forall e, f :: e in a && f in b ==> !Sees(e, f, parents) && e.tag != f.tag
    ensures Arranged(a + b, parents)
  {
    forall i, j | 0 <= i <= j < |a + b|
      ensures !Sees((a + b)[i], (a + b)[j], parents) && (i < j ==> (a + b)[i].tag != (a + b)[j].tag)
    {
      if i < |a| <= j {
        assert a[i] in a && b[j - |a|] in b;
      }
    }
  }

  /** the entries of p first, then the rest: causal when no entry of p sees one of the rest */
  lemma SplitArranged(es: seq<Entry>, p: Entry -> bool, q: Entry -> bool, parents: ParentMap)
    requires Arranged(es, parents) && forall e :: q(e) <==> !p(e)
    requires forall e, f :: e in es && f in es && p(e) && q(f) ==> !Sees(e, f, parents)
    ensures Rearranged(es, Keep(es, p) + Keep(es, q), parents)
  {
    var a, b := Keep(es, p), Keep(es, q);
    KeepArranged(es, p, parents);
    KeepArranged(es, q, parents);
    KeepMembers(es, p);
    KeepMembers(es, q);
    KeepSplits(es, p, q);
    forall e, f | e in a && f in b
      ensures !Sees(e, f, parents) && e.tag != f.tag
    {
      if e.tag == f.tag {
        TagsIdentify(es, e, f);
      }
    }
    JoinArranged(a, b, parents);
  }

  lemma SeesTransitive(e: Entry, f: Entry, g: Entry, parents: ParentMap)
    requires Sees(e, f, parents) && Sees(f, g, parents)
    requires f.tag in parents && parents[f.tag] == f.parent
    ensures Sees(e, g, parents)
  {
    var n: nat :| Walk(e.parent, n, parents) == f.tag;
    var k: nat :| Walk(f.parent, k, parents) == g.tag;
    assert Walk(e.parent, n + 1, parents) == f.parent;
    WalkAdd(e.parent, n + 1, k, parents);
  }

  lemma {:induction false} LeastMaximal(u: UserId, es: seq<Entry>, among: seq<Entry>, parents: ParentMap)
    returns (m: Entry)
    requires exists e :: e in among && Maximal(e, u, es, parents)
    ensures m in among && Maximal(m, u, es, parents)
    ensures forall f :: f in among && Maximal(f, u, es, parents) && f.tag != m.tag ==> Less(m.tag, f.tag)
  {
    var e, pre := among[|among| - 1], among[..|among| - 1];
    assert among == pre + [e];
    if f :| f in pre && Maximal(f, u, es, parents) {
      m := LeastMaximal(u, es, pre, parents);
      if Maximal(e, u, es, parents) && Less(e.tag, m.tag) {
        forall g | g in pre && Maximal(g, u, es, parents) && g.tag != e.tag
          ensures Less(e.tag, g.tag)
        {
          if g.tag != m.tag {
            LessTransitive(e.tag, m.tag, g.tag);
          }
        }
        m := e;
      } else {
        LessTotal(e.tag, m.tag);
      }
    } else {
      m := e;
    }
  }

  /** an arrangement with the entry and whoever saw it at the end */
  lemma ArrangeLast(u: UserId, es: seq<Entry>, m: Entry, parents: ParentMap) returns (last: seq<Entry>)
    requires Arranged(es, parents) && Maximal(m, u, es, parents)
    requires forall f :: Maximal(f, u, es, parents) && f != m ==> Less(m.tag, f.tag)
    ensures Rearranged(es, last, parents)
    ensures SlotAfter(u, last, parents).member == Some(MemberFrom(m, u))
  {
    ghost var above := (e: Entry) => e == m || Sees(e, m, parents);
    ghost var others := (e: Entry) => !above(e);
    forall e, f | e in es && f in es && others(e) && above(f)
      ensures !Sees(e, f, parents)
    {
      if Sees(e, f, parents) && f != m {
        SeesTransitive(e, f, m, parents);
      }
    }
    SplitArranged(es, others, above, parents);
    var a, b := Keep(es, others), Keep(es, above);
    KeepMembers(es, others);
    KeepMembers(es, above);
    SameEffective(u, es, a + b, parents);
    LastMaximalWins(u, a, b, m, parents);
    last := a + b;
  }

  /** an arrangement with the entry right after its causal past */
  lemma ArrangeFirst(u: UserId, es: seq<Entry>, m: Entry, x: Entry, parents: ParentMap) returns (first: seq<Entry>)
    requires Arranged(es, parents) && m in es && Effective(x, u, es, parents)
    requires x != m && !Sees(m, x, parents) && Less(x.tag, m.tag)
    ensures Rearranged(es, first, parents)
    ensures var w := SlotAfter(u, first, parents).member; w.Some? ==> w.value.tag != m.tag
  {
    ghost var below := (e: Entry) => e == m || Sees(m, e, parents);
    ghost var others := (e: Entry) => !below(e);
    forall e, f | e in es && f in es && below(e) && others(f)
      ensures !Sees(e, f, parents)
    {
      if Sees(e, f, parents) && e != m {
        SeesTransitive(m, e, f, parents);
      }
    }
    SplitArranged(es, below, others, parents);
    var a, b := Keep(es, below), Keep(es, others);
    KeepMembers(es, below);
    KeepMembers(es, others);
    SameEffective(u, es, a + b, parents);
    OvertakenLoses(u, a, b, m, x, parents);
    first := a + b;
  }

  // ---------------------------------------------------------------- exactly when the order is free

  /** every causal arrangement lets the same update of the user win */
  ghost predicate WinnerOrderFree(u: UserId, es: seq<Entry>, parents: ParentMap) {
    forall es' :: Rearranged(es, es', parents) ==>
                    SlotAfter(u, es', parents).member == SlotAfter(u, es, parents).member
  }

  lemma WinnerOrderFreeIff(u: UserId, es: seq<Entry>, parents: ParentMap)
    requires Arranged(es, parents)
    ensures WinnerOrderFree(u, es, parents) <==> (HasEffective(u, es, parents) ==> HasDominant(u, es, parents))
  {
    if HasEffective(u, es, parents) {
      if w :| Dominant(w, u, es, parents) {
        DominantWins(u, es, w, parents);
        forall es' | Rearranged(es, es', parents)
          ensures SlotAfter(u, es', parents).member == SlotAfter(u, es, parents).member
        {
          SameEffective(u, es, es', parents);
          DominantWins(u, es', w, parents);
        }
      } else {
        var m, last, w, first := UndominatedDepends(u, es, parents);
      }
    } else {
      MemberCharacterised(u, es, parents);
      forall es' | Rearranged(es, es', parents)
        ensures SlotAfter(u, es', parents).member == SlotAfter(u, es, parents).member
      {
        MembershipOrderFree(u, es, es', parents);
      }
    }
  }

  /** the maximal update with the smallest tag */
  ghost predicate IsLeastMaximal(m: Entry, u: UserId, es: seq<Entry>, parents: ParentMap) {
    Maximal(m, u, es, parents) && forall f :: Maximal(f, u, es, parents) && f != m ==> Less(m.tag, f.tag)
  }

  /** without a dominant update the least maximal one wins in one arrangement and another one wins in another */
  lemma UndominatedDepends(u: UserId, es: seq<Entry>, parents: ParentMap)
    returns (m: Entry, last: seq<Entry>, w: Entry, first: seq<Entry>)
    requires Arranged(es, parents) && HasEffective(u, es, parents) && !HasDominant(u, es, parents)
    ensures IsLeastMaximal(m, u, es, parents) && Maximal(w, u, es, parents) && w.tag != m.tag
    ensures Rearranged(es, last, parents) && SlotAfter(u, last, parents).member == Some(MemberFrom(m, u))
    ensures Rearranged(es, first, parents) && SlotAfter(u, first, parents).member == Some(MemberFrom(w, u))
  {
    MemberCharacterised(u, es, parents);
    assert EntryOf(u, es, parents) in es;
    m := LeastMaximal(u, es, es, parents);
    assert !Dominant(m, u, es, parents);
    var x :| Effective(x, u, es, parents) && x != m && !Sees(m, x, parents) && !Less(m.tag, x.tag);
    LessTotal(m.tag, x.tag);
    if m.tag == x.tag {
      TagsIdentify(es, m, x);
    }
    forall f | Maximal(f, u, es, parents) && f != m
      ensures Less(m.tag, f.tag)
    {
      if f.tag == m.tag {
        TagsIdentify(es, m, f);
      }
    }
    last := ArrangeLast(u, es, m, parents);
    first := ArrangeFirst(u, es, m, x, parents);
    MembershipOrderFree(u, es, first, parents);
    MemberCharacterised(u, first, parents);
    w :| Maximal(w, u, first, parents) && SlotAfter(u, first, parents).member.value == MemberFrom(w, u);
    SameEffective(u, es, first, parents);
  }

  // ---------------------------------------------------------------- what the merge returns of it

  /** the access the merge returns for the user, if it is a member */
  ghost function AccessAfter(u: UserId, es: seq<Entry>, parents: ParentMap): Option<UserAccess> {
    var m := SlotAfter(u, es, parents).member;
    if m.Some? then Some(m.value.access) else None
  }

  /** every causal arrangement returns the same access for the user */
  ghost predicate AccessOrderFree(u: UserId, es: seq<Entry>, parents: ParentMap) {
    forall es' :: Rearranged(es, es', parents) ==> AccessAfter(u, es', parents) == AccessAfter(u, es, parents)
  }

  /** all maximal updates grant the same */
  ghost predicate OneMaximalAccess(u: UserId, es: seq<Entry>, parents: ParentMap) {
    forall e, f :: Maximal(e, u, es, parents) && Maximal(f, u, es, parents) ==> AccessIn(e, u) == AccessIn(f, u)
  }

  /** what the maximal update with the smallest tag grants, no other maximal update grants */
  ghost predicate LeastStandsOut(u: UserId, es: seq<Entry>, parents: ParentMap) {
    forall m, f :: IsLeastMaximal(m, u, es, parents) && Maximal(f, u, es, parents) && f != m ==>
                     AccessIn(f, u) != AccessIn(m, u)
  }

  /** the access is that of a maximal update in every arrangement */
  lemma AccessIsMaximal(u: UserId, es: seq<Entry>, es': seq<Entry>, parents: ParentMap) returns (e: Entry)
    requires Arranged(es, parents) && Rearranged(es, es', parents) && HasEffective(u, es, parents)
    ensures Maximal(e, u, es, parents) && AccessAfter(u, es', parents) == Some(AccessIn(e, u))
  {
    SameEffective(u, es, es', parents);
    MemberCharacterised(u, es, parents);
    MembershipOrderFree(u, es, es', parents);
    MemberCharacterised(u, es', parents);
    e :| Maximal(e, u, es', parents) && SlotAfter(u, es', parents).member.value == MemberFrom(e, u);
  }

  /** a dominant update, or maximal ones that all grant the same, settle the access whatever the order */
  lemma AccessOrderFreeIf(u: UserId, es: seq<Entry>, parents: ParentMap)
    requires Arranged(es, parents)
    requires !HasEffective(u, es, parents) || HasDominant(u, es, parents) || OneMaximalAccess(u, es, parents)
    ensures AccessOrderFree(u, es, parents)
  {
    if !HasEffective(u, es, parents) || HasDominant(u, es, parents) {
      WinnerOrderFreeIff(u, es, parents);
    } else {
      forall es' | Rearranged(es, es', parents)
        ensures AccessAfter(u, es', parents) == AccessAfter(u, es, parents)
      {
        var e := AccessIsMaximal(u, es, es', parents);
        var f := AccessIsMaximal(u, es, es, parents);
      }
    }
  }

  /** and where the least maximal update stands out by its access, nothing but a dominant update does */
  lemma AccessOrderFreeIff(u: UserId, es: seq<Entry>, parents: ParentMap)
    requires Arranged(es, parents) && LeastStandsOut(u, es, parents)
    ensures AccessOrderFree(u, es, parents) <==> (HasEffective(u, es, parents) ==> HasDominant(u, es, parents))
  {
    if HasEffective(u, es, parents) && !HasDominant(u, es, parents) {
      var m, last, w, first := UndominatedDepends(u, es, parents);
      assert AccessAfter(u, last, parents) == Some(AccessIn(m, u));
      assert AccessAfter(u, first, parents) == Some(AccessIn(w, u));
      assert w != m && AccessIn(w, u) != AccessIn(m, u);
    } else {
      AccessOrderFreeIf(u, es, parents);
    }
  }

  /** in particular where a user's effective updates grant pairwise different accesses */
  lemma DifferentAccessesIff(u: UserId, es: seq<Entry>, parents: ParentMap)
    requires Arranged(es, parents)
    requires forall e, f :: Effective(e, u, es, parents) && Effective(f, u, es, parents) && e != f ==>
                              AccessIn(e, u) != AccessIn(f, u)
    ensures AccessOrderFree(u, es, parents) <==> (HasEffective(u, es, parents) ==> HasDominant(u, es, parents))
  {
    AccessOrderFreeIff(u, es, parents);
  }

  /** a list is determined by who is in it */
  lemma {:induction false} OneListing(a: seq<UserAccess>, b: seq<UserAccess>)
    requires forall i, j :: 0 <= i < j < |a| ==> a[i].user < a[j].user
    requires forall i, j :: 0 <= i < j < |b| ==> b[i].user < b[j].user
    requires forall ua :: ua in a <==> ua in b
    ensures a == b
  {
    assert b != [] ==> b[0] in b;
    if a != [] {
      assert a[0] in b && b[0] in a;
      var i :| 0 <= i < |b| && b[i] == a[0];
      var j :| 0 <= j < |a| && a[j] == b[0];
      forall ua
        ensures ua in a[1..] <==> ua in b[1..]
      {
        RestHas(a, ua);
        RestHas(b, ua);
      }
      OneListing(a[1..], b[1..]);
    }
  }

  lemma RestHas(a: seq<UserAccess>, ua: UserAccess)
    requires a != [] && forall i, j :: 0 <= i < j < |a| ==> a[i].user < a[j].user
    ensures ua in a[1..] <==> ua in a && ua != a[0]
  {
    assert a == [a[0]] + a[1..];
    if ua in a[1..] {
      var i :| 0 <= i < |a[1..]| && a[1..][i] == ua;
      assert a[i + 1] == ua;
    }
  }

  /** two merges return the same list exactly when they agree on every user's access */
  lemma SameListingIff(es: seq<Entry>, es': seq<Entry>, parents: ParentMap, ret: seq<UserAccess>, ret': seq<UserAccess>)
    requires Listing(ret, es, parents) && Listing(ret', es', parents)
    requires Arranged(es, parents) && Arranged(es', parents)
    ensures ret == ret' <==> forall u :: AccessAfter(u, es, parents) == AccessAfter(u, es', parents)
  {
    if ret == ret' {
      forall u
        ensures AccessAfter(u, es, parents) == AccessAfter(u, es', parents)
      {
        AccessListed(u, es, parents, ret);
        AccessListed(u, es', parents, ret');
      }
    } else if forall u :: AccessAfter(u, es, parents) == AccessAfter(u, es', parents) {
      forall ua
        ensures ua in ret <==> ua in ret'
      {
        assert AccessAfter(ua.user, es, parents) == AccessAfter(ua.user, es', parents);
      }
      OneListing(ret, ret');
    }
  }

  /** a member's access is listed, and it is the only one of its user */
  lemma AccessListed(u: UserId, es: seq<Entry>, parents: ParentMap, ret: seq<UserAccess>)
    requires Arranged(es, parents) && Listing(ret, es, parents)
    ensures forall ua: UserAccess :: ua.user == u ==> (ua in ret <==> AccessAfter(u, es, parents) == Some(ua))
    ensures AccessAfter(u, es, parents).Some? ==> AccessAfter(u, es, parents).value.user == u
  {
    if AccessAfter(u, es, parents).Some? {
      MemberCharacterised(u, es, parents);
      var e := AccessIsMaximal(u, es, es, parents);
    }
  }

  /** so the returned list does not depend on the arrangement when no user's access does */
  lemma ListingOrderFree(es: seq<Entry>, es': seq<Entry>, parents: ParentMap, ret: seq<UserAccess>,
                         ret': seq<UserAccess>)
    requires Arranged(es, parents) && Rearranged(es, es', parents)
    requires Listing(ret, es, parents) && Listing(ret', es', parents)
    requires forall u :: AccessOrderFree(u, es, parents)
    ensures ret == ret'
  {
    forall u
      ensures AccessAfter(u, es, parents) == AccessAfter(u, es', parents)
    {
      assert AccessOrderFree(u, es, parents);
    }
    SameListingIff(es, es', parents, ret, ret');
  }

  // ---------------------------------------------------------------- where the order shows

  /** a walk of at most two references, spelled out */
  lemma PastOfRoot(a: Tag, from: Tag, parents: ParentMap)
    requires from == [] || (from in parents && parents[from] == [])
    ensures InPast(a, from, parents) <==> a != [] && a == from
  {
    assert Walk(from, 0, parents) == from;
    assert Walk(from, 1, parents) == [];
    if n: nat :| n > 0 && Walk(from, n, parents) == a {
      WalkEnded(from, 1, n, parents);
    }
  }

  ghost predicate JustUpdates(e: Entry, u: UserId) {
    !e.full && |e.changes| == 1 && e.changes[0].user == u && e.changes[0].access != NoAccess
  }

  /** one update on top of what the merge has of the user, without removals */
  lemma UpdateStep(u: UserId, es: seq<Entry>, e: Entry, parents: ParentMap)
    requires JustUpdates(e, u) && SlotAfter(u, es, parents).removals == []
    ensures Updates(e, u) && SlotAfter(u, es + [e], parents).removals == []
    ensures var m := SlotAfter(u, es, parents).member;
            SlotAfter(u, es + [e], parents).member ==
            if m.Some? && !Wins(e, m.value, parents) then m else Some(MemberFrom(e, u))
  {
    assert e.changes[0] in e.changes;
    Step(u, es, e, parents);
  }

  lemma ThreeUpdates(u: UserId, x: Entry, y: Entry, z: Entry, parents: ParentMap)
    requires JustUpdates(x, u) && JustUpdates(y, u) && JustUpdates(z, u)
    requires Wins(y, Member(x.changes[0], x.tag, x.parent), parents)
    requires Wins(z, Member(y.changes[0], y.tag, y.parent), parents)
    ensures AccessAfter(u, [x, y, z], parents) == Some(z.changes[0])
  {
    UpdateStep(u, [], x, parents);
    UpdateStep(u, [x], y, parents);
    UpdateStep(u, [x, y], z, parents);
    assert [] + [x] == [x] && [x] + [y] == [x, y] && [x, y] + [z] == [x, y, z];
  }

  /**
   * one update saw another, a third is concurrent with both and its tag lies between: two causal orders,
   * two winners
   */
  lemma BetweenDepends(u: UserId, b: Entry, c: Entry, a: Entry, parents: ParentMap)
    requires Arranged([b, a, c], parents)
    requires JustUpdates(a, u) && JustUpdates(b, u) && JustUpdates(c, u)
    requires Sees(a, b, parents) && !Sees(a, c, parents) && !Sees(c, b, parents) && !Sees(c, a, parents)
    requires !Sees(b, c, parents)
    requires Less(b.tag, c.tag) && Less(c.tag, a.tag)
    ensures Rearranged([b, a, c], [c, b, a], parents)
    ensures AccessAfter(u, [b, a, c], parents) == Some(c.changes[0])
    ensures AccessAfter(u, [c, b, a], parents) == Some(a.changes[0])
  {
    var es, es' := [b, a, c], [c, b, a];
    assert es[0] == b && es[1] == a && es[2] == c && es'[0] == c && es'[1] == b && es'[2] == a;
    ThreeUpdates(u, b, a, c, parents);
    ThreeUpdates(u, c, b, a, parents);
    forall i, j | 0 <= i <= j < |es'|
      ensures !Sees(es'[i], es'[j], parents) && (i < j ==> es'[i].tag != es'[j].tag)
    {
      assert !Sees(es[0], es[0], parents) && !Sees(es[1], es[1], parents) && !Sees(es[2], es[2], parents);
      assert !Sees(es[0], es[1], parents);
      assert es[0].tag != es[1].tag && es[0].tag != es[2].tag && es[1].tag != es[2].tag;
    }
  }

  lemma NobodyElse(u: UserId, v: UserId, es: seq<Entry>, e: Entry, parents: ParentMap)
    requires JustUpdates(e, u) && v != u && SlotAfter(v, es, parents).member.None?
    ensures SlotAfter(v, es + [e], parents).member.None?
  {
    Step(v, es, e, parents);
  }

  /** a list of one member, when only that user was updated */
  lemma OneMemberListing(u: UserId, x: Entry, y: Entry, z: Entry, parents: ParentMap, access: Access)
    requires JustUpdates(x, u) && JustUpdates(y, u) && JustUpdates(z, u)
    requires AccessAfter(u, [x, y, z], parents) == Some(UserAccess(u, access))
    ensures Listing([UserAccess(u, access)], [x, y, z], parents)
  {
    assert [] + [x] == [x] && [x] + [y] == [x, y] && [x, y] + [z] == [x, y, z];
    forall v | v != u
      ensures SlotAfter(v, [x, y, z], parents).member.None?
    {
      NobodyElse(u, v, [], x, parents);
      NobodyElse(u, v, [x], y, parents);
      NobodyElse(u, v, [x, y], z, parents);
    }
  }

  /** for any two accesses there are entries that the merge turns into one or the other by their order */
  lemma AccessDependsOnOrder(u: UserId, other: Access, one: Access, two: Access)
    returns (es: seq<Entry>, es': seq<Entry>, parents: ParentMap)
    requires other != NoAccess && one != NoAccess && two != NoAccess
    ensures Arranged(es, parents) && Rearranged(es, es', parents)
    ensures Listing([UserAccess(u, one)], es, parents) && Listing([UserAccess(u, two)], es', parents)
  {
    var b := Entry(false, [UserAccess(u, other)], [1], []);
    var c := Entry(false, [UserAccess(u, one)], [2], []);
    var a := Entry(false, [UserAccess(u, two)], [3], [1]);
    parents := map[[1] := [], [2] := [], [3] := [1]];
    es, es' := [b, a, c], [c, b, a];
    PastOfRoot([1], [], parents);
    PastOfRoot([2], [], parents);
    PastOfRoot([3], [], parents);
    PastOfRoot([1], [1], parents);
    PastOfRoot([2], [1], parents);
    PastOfRoot([3], [1], parents);
    BetweenDepends(u, b, c, a, parents);
    OneMemberListing(u, b, a, c, parents, one);
    OneMemberListing(u, c, b, a, parents, two);
  }

  /** a removal defeats whoever has won before it without having seen it, an effective update behind that one too */
  lemma LateRemovalErases(u: UserId, a: Entry, b: Entry, r: Entry, parents: ParentMap)
    requires JustUpdates(a, u) && JustUpdates(b, u) && !r.full && r.changes == [UserAccess(u, NoAccess)]
    requires Sees(a, r, parents) && !Sees(b, r, parents) && !Sees(b, a, parents) && !Sees(a, b, parents)
    requires Less(b.tag, a.tag)
    ensures HasEffective(u, [a, b, r], parents) && !IsMember(u, [a, b, r], parents)
  {
    assert a.changes[0] in a.changes && b.changes[0] in b.changes && r.changes[0] in r.changes;
    Step(u, [], a, parents);
    Step(u, [a], b, parents);
    Step(u, [a, b], r, parents);
    assert [] + [a] == [a] && [a] + [b] == [a, b] && [a, b] + [r] == [a, b, r];
    assert Effective(a, u, [a, b, r], parents);
  }

  /** an arrangement that is not causal can lose a member: its update saw the removal, yet comes first */
  lemma NonCausalLosesMember(u: UserId, access: Access) returns (es: seq<Entry>, parents: ParentMap)
    requires access != NoAccess
    ensures Deltas(es, parents) && DistinctTags(es) && !Causal(es, parents)
    ensures HasEffective(u, es, parents) && !IsMember(u, es, parents)
  {
    var updates := [UserAccess(u, access)];
    var r := Entry(false, [UserAccess(u, NoAccess)], [2], []);
    var a, b := Entry(false, updates, [3], [2]), Entry(false, updates, [1], []);
    parents := map[[2] := [], [3] := [2], [1] := []];
    es := [a, b, r];
    PastOfRoot([2], [2], parents);
    PastOfRoot([1], [2], parents);
    PastOfRoot([2], [], parents);
    PastOfRoot([3], [], parents);
    assert Sees(es[0], es[2], parents);
    LateRemovalErases(u, a, b, r, parents);
  }

  /** a full change forgets whatever came before it */
  lemma {:induction false} FullResets(u: UserId, before: seq<Entry>, e: Entry, after: seq<Entry>, parents: ParentMap)
    requires e.full
    ensures SlotAfter(u, before + [e] + after, parents) == SlotAfter(u, [e] + after, parents)
  {
    if after == [] {
      assert before + [e] + after == before + [e] && [e] + after == [e];
    } else {
      var n := |after| - 1;
      assert (before + [e] + after)[..|before| + 1 + n] == before + [e] + after[..n];
      assert ([e] + after)[..1 + n] == [e] + after[..n];
      FullResets(u, before, e, after[..n], parents);
    }
  }
}
