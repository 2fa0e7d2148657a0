/**
 * Full user changes in the membership merge (spsync/core/user_merge.cpp): a full change
 * forgets what came before it and grants what it lists. What the merge returns of any
 * sequence is told by the entries from its last full change on.
 */
module UserMergeFull {
  import opened Common
  import opened Octets
  import opened UserMerge
  import opened UserMergeOrder

  // ---------------------------------------------------------------- the first entry as a delta

  function Delta(e: Entry): Entry {
    e.(full := false)
  }

  /** only the first entry may be full; otherwise a causal arrangement */
  ghost predicate Begun(es: seq<Entry>, parents: ParentMap) {
    && (forall i :: 1 <= i < |es| ==> !es[i].full)
    && (forall e :: e in es ==> OneEach(e) && e.tag in parents && parents[e.tag] == e.parent)
    && DistinctTags(es) && Causal(es, parents)
  }

  function AsDelta(es: seq<Entry>): seq<Entry> {
    if es == [] then [] else [Delta(es[0])] + es[1..]
  }

  lemma AsDeltaAt(es: seq<Entry>, parents: ParentMap)
    requires Begun(es, parents)
    ensures |AsDelta(es)| == |es| && forall i :: 0 <= i < |es| ==> AsDelta(es)[i] == Delta(es[i])
    ensures Arranged(AsDelta(es), parents)
  {
    var ds := AsDelta(es);
    forall d | d in ds
      ensures !d.full && OneEach(d) && d.tag in parents && parents[d.tag] == d.parent
    {
      var i :| 0 <= i < |ds| && ds[i] == d;
      assert es[i] in es;
    }
    forall i, j | 0 <= i <= j < |ds|
      ensures !Sees(ds[i], ds[j], parents)
    {
      assert !Sees(es[i], es[j], parents);
    }
  }

  lemma {:induction false} SameChanges(u: UserId, s: Slot, changes: seq<UserAccess>, e: Entry, parents: ParentMap)
    ensures AfterChanges(u, s, changes, e, parents) == AfterChanges(u, s, changes, Delta(e), parents)
  {
    if changes != [] {
      SameChanges(u, s, changes[..|changes| - 1], e, parents);
    }
  }

  /** nothing precedes the first entry, so a full one does what the delta with its accesses does */
  lemma {:induction false} SameSlot(u: UserId, es: seq<Entry>, parents: ParentMap)
    requires forall i :: 1 <= i < |es| ==> !es[i].full
    ensures SlotAfter(u, es, parents) == SlotAfter(u, AsDelta(es), parents)
  {
    if es != [] {
      var n := |es| - 1;
      var ds := AsDelta(es);
      if n == 0 {
        assert es[..0] == [] && ds[..0] == [];
        SameChanges(u, EmptySlot, es[0].changes, es[0], parents);
      } else {
        SameSlot(u, es[..n], parents);
        assert ds[..n] == AsDelta(es[..n]) && ds[n] == es[n];
      }
    }
  }

  lemma EffectiveAsDelta(e: Entry, u: UserId, es: seq<Entry>, parents: ParentMap)
    requires Begun(es, parents) && e in es
    ensures Effective(e, u, es, parents) <==> Effective(Delta(e), u, AsDelta(es), parents)
  {
    AsDeltaAt(es, parents);
    var ds := AsDelta(es);
    var k :| 0 <= k < |es| && es[k] == e;
    assert ds[k] == Delta(e);
    if Effective(e, u, es, parents) {
      forall d | d in ds && Removes(d, u)
        ensures Sees(Delta(e), d, parents)
      {
        var i :| 0 <= i < |ds| && ds[i] == d;
        assert es[i] in es && Removes(es[i], u);
      }
    }
    if Effective(Delta(e), u, ds, parents) {
      forall r | r in es && Removes(r, u)
        ensures Sees(e, r, parents)
      {
        var i :| 0 <= i < |es| && es[i] == r;
        assert ds[i] in ds && Removes(ds[i], u);
      }
    }
  }

  /** the entry behind an entry of the delta arrangement */
  lemma Behind(d: Entry, es: seq<Entry>, parents: ParentMap) returns (e: Entry)
    requires Begun(es, parents) && d in AsDelta(es)
    ensures e in es && Delta(e) == d
  {
    AsDeltaAt(es, parents);
    var i :| 0 <= i < |es| && AsDelta(es)[i] == d;
    e := es[i];
  }

  lemma MaximalAsDelta(e: Entry, u: UserId, es: seq<Entry>, parents: ParentMap)
    requires Begun(es, parents) && e in es
    ensures Maximal(e, u, es, parents) <==> Maximal(Delta(e), u, AsDelta(es), parents)
  {
    EffectiveAsDelta(e, u, es, parents);
    var ds := AsDelta(es);
    if Maximal(e, u, es, parents) {
      forall d | Effective(d, u, ds, parents)
        ensures !Sees(d, Delta(e), parents)
      {
        var f := Behind(d, es, parents);
        EffectiveAsDelta(f, u, es, parents);
      }
    }
    if Maximal(Delta(e), u, ds, parents) {
      forall f | Effective(f, u, es, parents)
        ensures !Sees(f, e, parents)
      {
        EffectiveAsDelta(f, u, es, parents);
      }
    }
  }

  // ---------------------------------------------------------------- who is a member, with what

  /**
   * with a full entry first or none: a user is a member exactly with an update, the full entry's or a later
   * one's, that saw every removal of the user, and under the access of one such update that no other one saw
   */
  lemma BegunMembers(u: UserId, es: seq<Entry>, parents: ParentMap)
    requires Begun(es, parents)
    ensures IsMember(u, es, parents) <==> HasEffective(u, es, parents)
    ensures IsMember(u, es, parents) ==>
              exists e :: Maximal(e, u, es, parents) && SlotAfter(u, es, parents).member.value == MemberFrom(e, u)
  {
    var ds := AsDelta(es);
    AsDeltaAt(es, parents);
    SameSlot(u, es, parents);
    MemberCharacterised(u, ds, parents);
    if IsMember(u, es, parents) {
      var d :| Maximal(d, u, ds, parents) && SlotAfter(u, ds, parents).member.value == MemberFrom(d, u);
      var e := Behind(d, es, parents);
      MaximalAsDelta(e, u, es, parents);
      SameAccess(e, u);
    } else if HasEffective(u, es, parents) {
      var e :| Effective(e, u, es, parents);
      EffectiveAsDelta(e, u, es, parents);
      assert false;
    }
  }

  lemma OneAccess(e: Entry, u: UserId, ua: UserAccess)
    requires OneEach(e) && Updates(e, u) && ua in e.changes && ua.user == u
    ensures AccessIn(e, u) == ua
  {
    var i :| 0 <= i < |e.changes| && e.changes[i] == ua;
    var j :| 0 <= j < |e.changes| && e.changes[j] == AccessIn(e, u);
  }

  lemma SameAccess(e: Entry, u: UserId)
    requires OneEach(e) && Updates(e, u)
    ensures MemberFrom(Delta(e), u) == MemberFrom(e, u)
  {
    OneAccess(e, u, AccessIn(Delta(e), u));
  }

  /** a dominant update wins, a full entry's too */
  lemma BegunDominantWins(u: UserId, es: seq<Entry>, w: Entry, parents: ParentMap)
    requires Begun(es, parents) && Dominant(w, u, es, parents)
    ensures SlotAfter(u, es, parents).member == Some(MemberFrom(w, u))
  {
    var ds := AsDelta(es);
    AsDeltaAt(es, parents);
    SameSlot(u, es, parents);
    MaximalAsDelta(w, u, es, parents);
    SameAccess(w, u);
    forall d | Effective(d, u, ds, parents) && d != Delta(w) && !Sees(Delta(w), d, parents)
      ensures Less(w.tag, d.tag)
    {
      var f := Behind(d, es, parents);
      EffectiveAsDelta(f, u, es, parents);
    }
    DominantWins(u, ds, Delta(w), parents);
  }

  /** the members are the same in every causal arrangement that leaves a full entry first */
  lemma BegunMembershipOrderFree(u: UserId, es: seq<Entry>, es': seq<Entry>, parents: ParentMap)
    requires Begun(es, parents) && Begun(es', parents) && multiset(es') == multiset(es)
    ensures IsMember(u, es, parents) <==> IsMember(u, es', parents)
  {
    BegunMembers(u, es, parents);
    BegunMembers(u, es', parents);
    SameEffective(u, es, es', parents);
  }

  /** a full change alone: exactly the accesses it grants, as for the first change of a new storage */
  lemma FoundersListed(f: Entry, parents: ParentMap, ret: seq<UserAccess>)
    requires f.full && OneEach(f) && Listing(ret, [f], parents)
    ensures forall ua :: ua in ret <==> ua in f.changes && ua.access != NoAccess
  {
    forall ua
      ensures ua in ret <==> ua in f.changes && ua.access != NoAccess
    {
      SameSlot(ua.user, [f], parents);
      assert AsDelta([f]) == [] + [Delta(f)];
      Step(ua.user, [], Delta(f), parents);
      if ua in f.changes && ua.access != NoAccess {
        OneAccess(Delta(f), ua.user, ua);
      }
    }
  }

  // ---------------------------------------------------------------- any sequence

  /** the entries that matter start at k: a full one or the very first, with only deltas after it */
  ghost predicate Since(es: seq<Entry>, k: nat) {
    k < |es| && (k == 0 || es[k].full) && forall i :: k < i < |es| ==> !es[i].full
  }

  lemma {:induction false} SomeSince(es: seq<Entry>) returns (k: nat)
    requires es != []
    ensures Since(es, k)
  {
    var n := |es| - 1;
    if n == 0 || es[n].full {
      k := n;
    } else {
      k := SomeSince(es[..n]);
    }
  }

  ghost predicate Listed(u: UserId, ret: seq<UserAccess>) {
    exists ua :: ua in ret && ua.user == u
  }

  /**
   * what the merge returns of any sequence: a user is listed exactly with an update since the last full change
   * that saw every removal since then, under the access of such an update that no other one saw
   */
  lemma MergedSinceFull(es: seq<Entry>, k: nat, parents: ParentMap, ret: seq<UserAccess>)
    requires Since(es, k) && Begun(es[k..], parents) && Listing(ret, es, parents)
    ensures forall u :: Listed(u, ret) <==> HasEffective(u, es[k..], parents)
    ensures forall ua :: ua in ret ==>
                           exists e :: Maximal(e, ua.user, es[k..], parents) && ua in e.changes && ua.access != NoAccess
  {
    forall u
      ensures SlotAfter(u, es, parents) == SlotAfter(u, es[k..], parents)
    {
      assert es == es[..k] + [es[k]] + es[k + 1..] && [es[k]] + es[k + 1..] == es[k..];
      if k > 0 {
        FullResets(u, es[..k], es[k], es[k + 1..], parents);
      }
    }
    forall u
      ensures Listed(u, ret) <==> HasEffective(u, es[k..], parents)
    {
      ListedIff(u, es, parents, ret);
      BegunMembers(u, es[k..], parents);
    }
    forall ua | ua in ret
      ensures exists e :: Maximal(e, ua.user, es[k..], parents) && ua in e.changes && ua.access != NoAccess
    {
      BegunMembers(ua.user, es[k..], parents);
    }
  }

  lemma {:induction false} MemberIsUser(u: UserId, es: seq<Entry>, parents: ParentMap)
    ensures var m := SlotAfter(u, es, parents).member; m.Some? ==> m.value.access.user == u
  {
    if es != [] {
      var e := es[|es| - 1];
      var before := SlotAfter(u, es[..|es| - 1], parents);
      MemberIsUser(u, es[..|es| - 1], parents);
      ChangesKeepUser(u, if e.full then EmptySlot else before, e.changes, e, parents);
    }
  }

  lemma {:induction false} ChangesKeepUser(u: UserId, s: Slot, changes: seq<UserAccess>, e: Entry, parents: ParentMap)
    requires s.member.Some? ==> s.member.value.access.user == u
    ensures var m := AfterChanges(u, s, changes, e, parents).member; m.Some? ==> m.value.access.user == u
  {
    if changes != [] {
      ChangesKeepUser(u, s, changes[..|changes| - 1], e, parents);
    }
  }

  lemma ListedIff(u: UserId, es: seq<Entry>, parents: ParentMap, ret: seq<UserAccess>)
    requires Listing(ret, es, parents)
    ensures Listed(u, ret) <==> IsMember(u, es, parents)
  {
    MemberIsUser(u, es, parents);
    if IsMember(u, es, parents) {
      assert SlotAfter(u, es, parents).member.value.access in ret;
    }
  }
}
