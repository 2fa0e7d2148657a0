/**
 * Rebasing and committing pending records (spsync/engine/sync_engine.cpp,
 * spsync/engine/rebase_policy.cpp): one rebase settles a record, and the commit loop, which
 * starts over after every record it drops, does what one pass in order would.
 */
module CommitLoop {
  import opened Common
  import opened Octets

  type Tag = OctetVector

  type Hash = OctetVector

  type ObjectId = OctetVector

  datatype SyncMode = AllowAll | RequireSpecialSeen | RequireDataAddRemoveSeen | RequireAllSeen

  datatype ConflictPolicy = RebaseOnTop | Ask

  datatype RecordType = UserChangeRecord | DataChangeRecord | SegmentRecord

  datatype BlockId = BlockId(sequence: nat, hash: Hash)

  /** a change of an object and the record that changed it before; an add has none */
  datatype Change = Change(oid: ObjectId, previous: Tag)

  /** a record without its authentication */
  datatype Draft = Draft(kind: RecordType, lastSeen: BlockId, specialRef: Tag, op: OctetVector,
                         changes: seq<Change>, segmentEnd: nat, body: OctetVector)

  datatype Pending = Pending(draft: Draft, tag: Tag)

  /**
   * what the in sync records say: the head, the newest special record, the newest data add, the newest
   * record per object
   */
  datatype View = View(head: BlockId, newestSpecial: Tag, lastDataAdd: nat, newest: map<ObjectId, Tag>)

  /** authentication and hashing, uninterpreted */
  datatype Crypto = Crypto(usable: Pending -> bool, seal: Draft -> Tag, hash: Pending -> Hash)

  /** what a commit attempt works with; the marks of the records the server rejected, by tag, in the form it rejected */
  datatype Context = Context(crypto: Crypto, mode: SyncMode, policy: ConflictPolicy, view: View, rejected: map<Tag,
                             Hash>)

  /** the newest data add is one of the in sync records, and tags are never empty */
  predicate Consistent(v: View) {
    v.lastDataAdd <= v.head.sequence && forall oid :: oid in v.newest ==> v.newest[oid] != []
  }

  // ---------------------------------------------------------------- the rebase rules

  predicate AtLeastSpecial(mode: SyncMode) {
    mode != AllowAll
  }

  predicate HasAdds(d: Draft) {
    exists i :: 0 <= i < |d.changes| && d.changes[i].previous == []
  }

  predicate NeedsRebase(mode: SyncMode, v: View, d: Draft) {
    if mode == RequireAllSeen then d.lastSeen != v.head
    else if d.kind == SegmentRecord then AtLeastSpecial(mode) && d.lastSeen != v.head
    else
      var specialBehind := AtLeastSpecial(mode) && v.newestSpecial != [] && d.specialRef != v.newestSpecial;
      if d.kind == UserChangeRecord then specialBehind
      else if specialBehind then true
      else if mode == RequireDataAddRemoveSeen && HasAdds(d)
           then v.lastDataAdd != 0 && v.lastDataAdd > d.lastSeen.sequence
      else false
  }

  /** the object changed underneath the pending change */
  predicate Conflicting(v: View, c: Change) {
    c.previous != [] && c.oid in v.newest && v.newest[c.oid] != c.previous
  }

  predicate HasConflicts(v: View, d: Draft) {
    d.kind == DataChangeRecord && exists i :: 0 <= i < |d.changes| && Conflicting(v, d.changes[i])
  }

  predicate OnHead(v: View, d: Draft) {
    d.lastSeen == v.head && d.specialRef == v.newestSpecial
  }

  /** nothing asks for a rebuild, in the given mode */
  predicate Settled(mode: SyncMode, v: View, d: Draft) {
    !NeedsRebase(mode, v, d) && !HasConflicts(v, d)
  }

  // ---------------------------------------------------------------- the rebuild

  function RebasedChange(v: View, c: Change): Change {
    if Conflicting(v, c) then c.(previous := v.newest[c.oid]) else c
  }

  function RebasedChanges(v: View, cs: seq<Change>): seq<Change> {
    if cs == [] then [] else RebasedChanges(v, cs[..|cs| - 1]) + [RebasedChange(v, cs[|cs| - 1])]
  }

  function RebuiltDraft(v: View, d: Draft): Draft {
    d.(lastSeen := v.head, specialRef := v.newestSpecial,
       changes := if d.kind == DataChangeRecord then RebasedChanges(v, d.changes) else d.changes,
       segmentEnd := if d.kind == SegmentRecord then v.head.sequence + 1 else d.segmentEnd)
  }

  function Rebuilt(c: Crypto, v: View, p: Pending): Pending {
    Pending(RebuiltDraft(v, p.draft), c.seal(RebuiltDraft(v, p.draft)))
  }

  method UpdateRecord(c: Crypto, v: View, p: Pending) returns (r: Pending)
    ensures r == Rebuilt(c, v, p)
  {
    var d := p.draft.(lastSeen := v.head, specialRef := v.newestSpecial);
    if d.kind == DataChangeRecord {
      var changes: seq<Change> := [];
      for i := 0 to |d.changes|
        invariant changes == RebasedChanges(v, d.changes[..i])
      {
        var change := d.changes[i];
        if change.previous != [] {
          if change.oid in v.newest && v.newest[change.oid] != change.previous {
            change := change.(previous := v.newest[change.oid]);
          }
        }
        assert d.changes[..i + 1][..i] == d.changes[..i];
        changes := changes + [change];
      }
      assert d.changes[..|d.changes|] == d.changes;
      d := d.(changes := changes);
    } else if d.kind == SegmentRecord {
      d := d.(segmentEnd := v.head.sequence + 1);
    }
    r := Pending(d, c.seal(d));
  }

  lemma {:induction false} RebasedChangesAt(v: View, cs: seq<Change>)
    ensures |RebasedChanges(v, cs)| == |cs|
    ensures forall i :: 0 <= i < |cs| ==> RebasedChanges(v, cs)[i] == RebasedChange(v, cs[i])
  {
    if cs != [] {
      RebasedChangesAt(v, cs[..|cs| - 1]);
    }
  }

  /** a rebuilt record keeps its operation and its objects, and is settled in every mode */
  lemma RebuiltSettles(c: Crypto, v: View, p: Pending, mode: SyncMode)
    requires Consistent(v)
    ensures var r := Rebuilt(c, v, p);
            && Settled(mode, v, r.draft) && OnHead(v, r.draft)
            && r.draft.op == p.draft.op && r.draft.kind == p.draft.kind && r.draft.body == p.draft.body
            && |r.draft.changes| == |p.draft.changes|
            && (forall i :: 0 <= i < |r.draft.changes| ==>
                              && r.draft.changes[i].oid == p.draft.changes[i].oid
                              && (r.draft.changes[i].previous == [] <==> p.draft.changes[i].previous == []))
  {
    RebasedChangesAt(v, p.draft.changes);
  }

  /** when the rules or a conflict ask for it the record really is rebuilt: it is not left as up to date */
  lemma NeededIsRebuilt(v: View, d: Draft, mode: SyncMode)
    requires Consistent(v) && !Settled(mode, v, d)
    ensures !(OnHead(v, d) && !HasConflicts(v, d))
  {
  }

  // ---------------------------------------------------------------- what may be lost

  /** the only ways to lose a record: a conflict that is to be asked about, or a rebuild that its state forbids */
  predicate Gone(x: Context, p: Pending) {
    || (HasConflicts(x.view, p.draft) && x.policy == Ask)
    || ((HasConflicts(x.view, p.draft) || NeedsRebase(x.mode, x.view, p.draft)) && !x.crypto.usable(p))
  }

  /** a change of a rebuilt record: on the newest record of its object where that is another one */
  predicate OnNewest(v: View, c: Change, c': Change) {
    && c'.oid == c.oid
    && c'.previous == if Conflicting(v, c) then v.newest[c.oid] else c.previous
  }

  /** r is p on the head, sealed anew */
  predicate Moved(x: Context, p: Pending, r: Pending) {
    && r.tag == x.crypto.seal(r.draft) && OnHead(x.view, r.draft)
    && r.draft.kind == p.draft.kind && r.draft.op == p.draft.op && r.draft.body == p.draft.body
    && |r.draft.changes| == |p.draft.changes|
    && (if p.draft.kind == DataChangeRecord
        then forall i :: 0 <= i < |p.draft.changes| ==> OnNewest(x.view, p.draft.changes[i], r.draft.changes[i])
        else r.draft.changes == p.draft.changes)
    && r.draft.segmentEnd == if p.draft.kind == SegmentRecord then x.view.head.sequence + 1 else p.draft.segmentEnd
  }

  /** what is left of a record that is not lost: the record itself unless something asks for a rebuild */
  predicate LeftOf(x: Context, p: Pending, r: Pending) {
    if HasConflicts(x.view, p.draft) || NeedsRebase(x.mode, x.view, p.draft) then Moved(x, p, r) else r == p
  }

  /** qs is what is left of ps, one by one and in order */
  ghost predicate Left(x: Context, ps: seq<Pending>, qs: seq<Pending>) {
    if ps == [] then qs == []
    else if Gone(x, ps[0]) then Left(x, ps[1..], qs)
    else qs != [] && LeftOf(x, ps[0], qs[0]) && Left(x, ps[1..], qs[1..])
  }

  lemma RebuiltIsMoved(x: Context, p: Pending)
    ensures Moved(x, p, Rebuilt(x.crypto, x.view, p))
  {
    RebasedChangesAt(x.view, p.draft.changes);
  }

  // ---------------------------------------------------------------- one pass in order

  /** what becomes of a pending record: dropped, or kept in a settled form */
  datatype Outcome = Dropped | Kept(record: Pending)

  function OutcomeOf(x: Context, p: Pending): Outcome {
    if HasConflicts(x.view, p.draft) && x.policy == Ask then Dropped
    else if Settled(x.mode, x.view, p.draft) then Kept(p)
    else if x.crypto.usable(p) then Kept(Rebuilt(x.crypto, x.view, p))
    else Dropped
  }

  /** rejected by the server in exactly this form */
  predicate RejectedUnchanged(x: Context, p: Pending) {
    p.tag in x.rejected && x.rejected[p.tag] == x.crypto.hash(p)
  }

  /** the pending records in order, up to the first that goes to the server */
  function Pass(x: Context, ps: seq<Pending>): (seq<Pending>, Option<Pending>) {
    if ps == [] then ([], None)
    else
      match OutcomeOf(x, ps[0])
      case Dropped => Pass(x, ps[1..])
      case Kept(r) =>
        if RejectedUnchanged(x, r) then
          var (rest, sent) := Pass(x, ps[1..]);
          ([r] + rest, sent)
        else ([r] + ps[1..], Some(r))
  }

  /** nothing to do for this one: settled, and refused as it is */
  predicate Waits(x: Context, p: Pending) {
    Settled(x.mode, x.view, p.draft) && RejectedUnchanged(x, p)
  }

  ghost predicate AllWait(x: Context, ps: seq<Pending>) {
    forall i :: 0 <= i < |ps| ==> Waits(x, ps[i])
  }

  lemma {:induction false} PassSkipsWaiting(x: Context, done: seq<Pending>, ps: seq<Pending>)
    requires AllWait(x, done)
    ensures Pass(x, done + ps) == (done + Pass(x, ps).0, Pass(x, ps).1)
  {
    var rest := Pass(x, ps).0;
    if done == [] {
      assert done + ps == ps && done + rest == rest;
    } else {
      PassSkipsWaiting(x, done[1..], ps);
      assert (done + ps)[1..] == done[1..] + ps;
      assert Waits(x, done[0]);
      assert [done[0]] + (done[1..] + rest) == done + rest;
    }
  }

  /** replacing a record by what it becomes changes nothing about the pass */
  lemma PassAfterKept(x: Context, p: Pending, ps: seq<Pending>)
    requires Consistent(x.view) && OutcomeOf(x, p).Kept?
    ensures var r := OutcomeOf(x, p).record;
            OutcomeOf(x, r) == Kept(r) && Settled(x.mode, x.view, r.draft) && Pass(x, [r] + ps) == Pass(x, [p] + ps)
  {
    RebuiltSettles(x.crypto, x.view, p, x.mode);
    var r := OutcomeOf(x, p).record;
    assert ([r] + ps)[1..] == ps && ([p] + ps)[1..] == ps;
  }

  /** the record at i goes to the server: settled, not refused as it is, and everything before it waits */
  ghost predicate SentAt(x: Context, qs: seq<Pending>, i: nat) {
    i < |qs| && Settled(x.mode, x.view, qs[i].draft) && !RejectedUnchanged(x, qs[i]) && AllWait(x, qs[..i])
  }

  /** the pass ends with one commit; or without one, and every record left was refused in exactly its current form */
  lemma {:induction false} PassEnds(x: Context, ps: seq<Pending>)
    requires Consistent(x.view)
    ensures var (qs, sent) := Pass(x, ps);
            && (sent.None? ==> AllWait(x, qs))
            && (sent.Some? ==> exists i: nat :: SentAt(x, qs, i) && qs[i] == sent.value)
  {
    if ps != [] {
      PassEnds(x, ps[1..]);
      var o := OutcomeOf(x, ps[0]);
      var (qs, sent) := Pass(x, ps);
      if o.Kept? {
        RebuiltSettles(x.crypto, x.view, ps[0], x.mode);
        if RejectedUnchanged(x, o.record) {
          var rest := Pass(x, ps[1..]).0;
          if sent.Some? {
            var i: nat :| SentAt(x, rest, i) && rest[i] == sent.value;
            assert qs[..i + 1] == [o.record] + rest[..i];
            assert SentAt(x, qs, i + 1);
          }
        } else {
          assert SentAt(x, qs, 0);
        }
      }
    }
  }

  ghost predicate Subsequence(a: seq<OctetVector>, b: seq<OctetVector>) {
    if a == [] then true
    else if b == [] then false
    else (a[0] == b[0] && Subsequence(a[1..], b[1..])) || Subsequence(a, b[1..])
  }

  function Ops(ps: seq<Pending>): seq<OctetVector> {
    if ps == [] then [] else [ps[0].draft.op] + Ops(ps[1..])
  }

  lemma {:induction false} SubsequenceOfItself(a: seq<OctetVector>)
    ensures Subsequence(a, a)
  {
    if a != [] {
      SubsequenceOfItself(a[1..]);
    }
  }

  /** no operation is invented, duplicated or moved: the ones left are the ones there were, in their order */
  lemma {:induction false} PassKeepsOrder(x: Context, ps: seq<Pending>)
    ensures Subsequence(Ops(Pass(x, ps).0), Ops(ps))
  {
    if ps != [] {
      PassKeepsOrder(x, ps[1..]);
      var o := OutcomeOf(x, ps[0]);
      assert Ops(ps)[1..] == Ops(ps[1..]);
      if o.Kept? {
        var q := Pass(x, ps).0;
        assert Ops(q)[1..] == Ops(q[1..]);
        SubsequenceOfItself(Ops(ps[1..]));
      }
    }
  }

  lemma OutcomeIsLeft(x: Context, p: Pending)
    ensures OutcomeOf(x, p) == Dropped <==> Gone(x, p)
    ensures OutcomeOf(x, p).Kept? ==> LeftOf(x, p, OutcomeOf(x, p).record)
  {
    RebuiltIsMoved(x, p);
  }

  /**
   * the first n records were dealt with and qs begins with what is left of them; the rest is as it was.
   * Without a commit that is all of them, and each is settled and was refused as it is; else the last one left
   * went to the server
   */
  ghost predicate Dealt(x: Context, ps: seq<Pending>, qs: seq<Pending>, sent: Option<Pending>, n: nat) {
    && n <= |ps| && |ps| - n <= |qs|
    && (var m := |qs| - (|ps| - n);
        && qs[m..] == ps[n..] && Left(x, ps[..n], qs[..m])
        && (if sent.None? then n == |ps| && AllWait(x, qs)
            else m > 0 && SentAt(x, qs, m - 1) && qs[m - 1] == sent.value))
  }

  lemma DealtFirst(x: Context, ps: seq<Pending>, qs: seq<Pending>, sent: Option<Pending>, n: nat)
    requires ps != []
    requires if Gone(x, ps[0]) then Dealt(x, ps[1..], qs, sent, n)
             else qs != [] && LeftOf(x, ps[0], qs[0]) && Waits(x, qs[0]) && Dealt(x, ps[1..], qs[1..], sent, n)
    ensures Dealt(x, ps, qs, sent, n + 1)
  {
    var m := |qs| - (|ps| - (n + 1));
    assert ps[n + 1..] == ps[1..][n..] && ps[..n + 1][1..] == ps[1..][..n];
    if !Gone(x, ps[0]) {
      assert qs[m..] == qs[1..][m - 1..] && qs[..m][1..] == qs[1..][..m - 1];
      if sent.Some? {
        assert qs[..m - 1] == [qs[0]] + qs[1..][..m - 2];
      }
    }
  }

  lemma DealtSent(x: Context, ps: seq<Pending>, r: Pending)
    requires ps != [] && !Gone(x, ps[0]) && LeftOf(x, ps[0], r)
    requires Settled(x.mode, x.view, r.draft) && !RejectedUnchanged(x, r)
    ensures Dealt(x, ps, [r] + ps[1..], Some(r), 1)
  {
    var qs := [r] + ps[1..];
    assert qs[1..] == ps[1..] && qs[..1] == [r] && qs[..0] == [] && ps[..1] == [ps[0]];
    assert Left(x, ps[..1][1..], qs[..1][1..]);
  }

  lemma {:induction false} PassDeals(x: Context, ps: seq<Pending>) returns (n: nat)
    requires Consistent(x.view)
    ensures Dealt(x, ps, Pass(x, ps).0, Pass(x, ps).1, n)
  {
    n := 0;
    if ps != [] {
      OutcomeIsLeft(x, ps[0]);
      RebuiltSettles(x.crypto, x.view, ps[0], x.mode);
      var o := OutcomeOf(x, ps[0]);
      if o.Kept? && !RejectedUnchanged(x, o.record) {
        DealtSent(x, ps, o.record);
        n := 1;
      } else {
        var k := PassDeals(x, ps[1..]);
        var rest := Pass(x, ps[1..]).0;
        assert o.Kept? ==> ([o.record] + rest)[1..] == rest;
        DealtFirst(x, ps, Pass(x, ps).0, Pass(x, ps).1, k);
        n := k + 1;
      }
    }
  }

  lemma {:induction false} OpsJoined(a: seq<Pending>, b: seq<Pending>)
    ensures Ops(a + b) == Ops(a) + Ops(b)
  {
    if a == [] {
      assert a + b == b;
    } else {
      OpsJoined(a[1..], b);
      assert (a + b)[1..] == a[1..] + b;
      var op, x, y := a[0].draft.op, Ops(a[1..]), Ops(b);
      assert [op] + (x + y) == ([op] + x) + y;
    }
  }

  lemma {:induction false} OpsAre(ps: seq<Pending>, op: OctetVector)
    ensures op in Ops(ps) <==> exists p :: p in ps && p.draft.op == op
  {
    if ps != [] {
      OpsAre(ps[1..], op);
      assert ps == [ps[0]] + ps[1..];
    }
  }

  /** an operation is left exactly when a record with it is not lost */
  lemma {:induction false} LeftOps(x: Context, ps: seq<Pending>, qs: seq<Pending>, op: OctetVector)
    requires Left(x, ps, qs)
    ensures op in Ops(qs) <==> exists p :: p in ps && !Gone(x, p) && p.draft.op == op
  {
    if ps != [] {
      assert ps == [ps[0]] + ps[1..];
      if Gone(x, ps[0]) {
        LeftOps(x, ps[1..], qs, op);
      } else {
        LeftOps(x, ps[1..], qs[1..], op);
        assert Ops(qs) == [qs[0].draft.op] + Ops(qs[1..]);
        assert qs[0].draft.op == ps[0].draft.op;
      }
    }
  }

  /** when no record is lost the operations are those there were */
  lemma {:induction false} NoneLost(x: Context, ps: seq<Pending>, qs: seq<Pending>)
    requires Left(x, ps, qs)
    requires forall p :: p in ps ==> !Gone(x, p)
    ensures Ops(qs) == Ops(ps)
  {
    if ps != [] {
      NoneLost(x, ps[1..], qs[1..]);
    }
  }

  ghost predicate OneEach(ps: seq<Pending>) {
    forall i, j :: 0 <= i < j < |ps| ==> ps[i].draft.op != ps[j].draft.op
  }

  /** an operation is missing exactly when its record was dealt with and had to go */
  ghost predicate MissingAre(x: Context, ps: seq<Pending>, qs: seq<Pending>, n: nat) {
    forall i :: 0 <= i < |ps| ==> (ps[i].draft.op !in Ops(qs) <==> i < n && Gone(x, ps[i]))
  }

  lemma OneRecord(ps: seq<Pending>, i: nat, n: nat)
    requires OneEach(ps) && i < |ps| && n <= |ps|
    ensures forall p :: p in ps[..n] && p.draft.op == ps[i].draft.op ==> i < n && p == ps[i]
    ensures forall p :: p in ps[n..] && p.draft.op == ps[i].draft.op ==> n <= i
    ensures if i < n then ps[i] in ps[..n] else ps[i] in ps[n..]
  {
    if i < n {
      assert ps[..n][i] == ps[i];
    } else {
      assert ps[n..][i - n] == ps[i];
    }
  }

  lemma MissingAt(x: Context, ps: seq<Pending>, left: seq<Pending>, n: nat, i: nat)
    requires OneEach(ps) && i < |ps| && n <= |ps| && Left(x, ps[..n], left)
    ensures ps[i].draft.op !in Ops(left) + Ops(ps[n..]) <==> i < n && Gone(x, ps[i])
  {
    OneRecord(ps, i, n);
    LeftOps(x, ps[..n], left, ps[i].draft.op);
    OpsAre(ps[n..], ps[i].draft.op);
  }

  lemma DealtMissing(x: Context, ps: seq<Pending>, qs: seq<Pending>, sent: Option<Pending>, n: nat)
    requires Dealt(x, ps, qs, sent, n) && OneEach(ps)
    ensures MissingAre(x, ps, qs, n)
  {
    var m := |qs| - (|ps| - n);
    assert qs == qs[..m] + qs[m..];
    OpsJoined(qs[..m], qs[m..]);
    forall i | 0 <= i < |ps|
      ensures ps[i].draft.op !in Ops(qs) <==> i < n && Gone(x, ps[i])
    {
      MissingAt(x, ps, qs[..m], n, i);
    }
  }

  lemma DealtKeepsAll(x: Context, ps: seq<Pending>, qs: seq<Pending>, sent: Option<Pending>, n: nat)
    requires Dealt(x, ps, qs, sent, n) && x.policy == RebaseOnTop
    requires forall p :: p in ps ==> x.crypto.usable(p)
    ensures Ops(qs) == Ops(ps)
  {
    var m := |qs| - (|ps| - n);
    assert qs == qs[..m] + qs[m..] && ps == ps[..n] + ps[n..];
    OpsJoined(qs[..m], qs[m..]);
    OpsJoined(ps[..n], ps[n..]);
    NoneLost(x, ps[..n], qs[..m]);
  }

  /** what the loop makes of the pending records, and what it sends */
  ghost predicate Committed(x: Context, ps: seq<Pending>, qs: seq<Pending>, sent: Option<Pending>) {
    && (exists n: nat :: Dealt(x, ps, qs, sent, n) && (OneEach(ps) ==> MissingAre(x, ps, qs, n)))
    && (x.policy == RebaseOnTop && (forall p :: p in ps ==> x.crypto.usable(p)) ==> Ops(qs) == Ops(ps))
  }

  /** nothing is lost under the default policy while the records are usable; otherwise exactly the ones that must go */
  lemma PassCommits(x: Context, ps: seq<Pending>)
    requires Consistent(x.view)
    ensures Committed(x, ps, Pass(x, ps).0, Pass(x, ps).1)
  {
    var (qs, sent) := Pass(x, ps);
    var n := PassDeals(x, ps);
    if OneEach(ps) {
      DealtMissing(x, ps, qs, sent, n);
    }
    if x.policy == RebaseOnTop && forall p :: p in ps ==> x.crypto.usable(p) {
      DealtKeepsAll(x, ps, qs, sent, n);
    }
  }

  // ---------------------------------------------------------------- the loop

  method FindOidConflicts(v: View, p: Pending) returns (conflicts: seq<Tag>)
    ensures conflicts != [] <==> HasConflicts(v, p.draft)
  {
    conflicts := [];
    if p.draft.kind == DataChangeRecord {
      for i := 0 to |p.draft.changes|
        invariant conflicts != [] <==> exists k :: 0 <= k < i && Conflicting(v, p.draft.changes[k])
      {
        var c := p.draft.changes[i];
        if c.previous != [] && c.oid in v.newest && v.newest[c.oid] != c.previous {
          conflicts := conflicts + [v.newest[c.oid]];
        }
      }
    }
  }

  /** none: it is up to date; an unusable record cannot be rebuilt */
  method UpdatePendingCommit(c: Crypto, v: View, p: Pending, hasConflicts: bool)
    returns (usable: bool, r: Option<Pending>)
    ensures if OnHead(v, p.draft) && !hasConflicts then usable && r.None?
            else usable == c.usable(p) && (usable ==> r == Some(Rebuilt(c, v, p)))
  {
    if OnHead(v, p.draft) && !hasConflicts {
      return true, None;
    }
    if !c.usable(p) {
      return false, None;
    }
    var rebuilt := UpdateRecord(c, v, p);
    return true, Some(rebuilt);
  }

  method RebaseIfNeeded(x: Context, p: Pending, conflicts: seq<Tag>) returns (usable: bool, r: Pending)
    requires Consistent(x.view) && (conflicts != [] <==> HasConflicts(x.view, p.draft))
    requires !(conflicts != [] && x.policy == Ask)
    ensures OutcomeOf(x, p) == if usable then Kept(r) else Dropped
    ensures usable == !Gone(x, p) && (usable ==> LeftOf(x, p, r))
  {
    OutcomeIsLeft(x, p);
    usable, r := true, p;
    if conflicts != [] || NeedsRebase(x.mode, x.view, p.draft) {
      NeededIsRebuilt(x.view, p.draft, x.mode);
      var rebuilt;
      usable, rebuilt := UpdatePendingCommit(x.crypto, x.view, p, conflicts != []);
      if usable && rebuilt.Some? {
        r := rebuilt.value;
      }
    }
  }

  lemma PassAfterDrop(x: Context, ps: seq<Pending>, at: nat)
    requires at < |ps| && AllWait(x, ps[..at]) && OutcomeOf(x, ps[at]) == Dropped
    ensures Pass(x, ps[..at] + ps[at + 1..]) == Pass(x, ps)
  {
    var done, p, rest := ps[..at], ps[at], ps[at + 1..];
    assert ps == done + ([p] + rest) && ([p] + rest)[1..] == rest;
    PassSkipsWaiting(x, done, [p] + rest);
    PassSkipsWaiting(x, done, rest);
  }

  lemma SplitAt(ps: seq<Pending>, at: nat, r: Pending)
    requires at < |ps|
    ensures ps == ps[..at] + ([ps[at]] + ps[at + 1..]) && ps[at := r] == ps[..at] + ([r] + ps[at + 1..])
    ensures ([r] + ps[at + 1..])[1..] == ps[at + 1..] && ps[at := r][..at + 1] == ps[..at] + [r]
  {
  }

  lemma PassWithKept(x: Context, ps: seq<Pending>, at: nat)
    requires Consistent(x.view) && at < |ps| && AllWait(x, ps[..at]) && OutcomeOf(x, ps[at]).Kept?
    ensures var r := OutcomeOf(x, ps[at]).record;
            if RejectedUnchanged(x, r) then Pass(x, ps[at := r]) == Pass(x, ps) && AllWait(x, ps[at := r][..at + 1])
            else Pass(x, ps) == (ps[at := r], Some(r))
  {
    var done, p, rest, r := ps[..at], ps[at], ps[at + 1..], OutcomeOf(x, ps[at]).record;
    PassAfterKept(x, p, rest);
    PassSkipsWaiting(x, done, [p] + rest);
    PassSkipsWaiting(x, done, [r] + rest);
    SplitAt(ps, at, r);
  }

  /** one turn of the loop: the record at the position is dropped, skipped or ready to go */
  method Turn(x: Context, ps: seq<Pending>, at: nat) returns (ps': seq<Pending>, at': nat, commit: Option<Pending>)
    requires Consistent(x.view) && at < |ps| && AllWait(x, ps[..at])
    ensures commit.None? ==> at' <= |ps'| && AllWait(x, ps'[..at']) && Pass(x, ps') == Pass(x, ps)
    ensures commit.None? ==> |ps'| < |ps| || (|ps'| == |ps| && at < at')
    ensures commit.Some? ==> Pass(x, ps) == (ps', commit)
    ensures if Gone(x, ps[at]) then ps' == ps[..at] + ps[at + 1..] && at' == 0 && commit.None?
            else
              && |ps'| == |ps| && ps' == ps[at := ps'[at]] && LeftOf(x, ps[at], ps'[at])
              && (if RejectedUnchanged(x, ps'[at]) then at' == at + 1 && commit.None? else commit == Some(ps'[at]))
  {
    var p := ps[at];
    var conflicts := FindOidConflicts(x.view, p);
    var usable, r := false, p;
    if !(conflicts != [] && x.policy == Ask) {
      usable, r := RebaseIfNeeded(x, p, conflicts);
    }
    if !usable {
      PassAfterDrop(x, ps, at);
      return ps[..at] + ps[at + 1..], 0, None;
    }
    PassWithKept(x, ps, at);
    ps' := ps[at := r];
    if RejectedUnchanged(x, r) {
      at', commit := at + 1, None;
    } else {
      at', commit := at, Some(r);
    }
  }

  ghost predicate Attempt(x: Context, ps: seq<Pending>, qs: seq<Pending>, sent: Option<Pending>) {
    Pass(x, ps) == (qs, sent) && Committed(x, ps, qs, sent)
  }

  /** the loop starts over after a drop, and still does what one pass does */
  method Commit(x: Context, pending: seq<Pending>) returns (ps: seq<Pending>, commit: Option<Pending>)
    requires Consistent(x.view)
    ensures Attempt(x, pending, ps, commit)
  {
    var at: nat := 0;
    ps, commit := pending, None;
    while at < |ps| && commit.None?
      invariant commit.None? ==> at <= |ps| && AllWait(x, ps[..at])
      invariant commit.None? ==> Pass(x, ps) == Pass(x, pending)
      invariant commit.Some? ==> Pass(x, pending) == (ps, commit)
      decreases commit.None?, |ps|, |ps| - at
    {
      ps, at, commit := Turn(x, ps, at);
    }
    if commit.None? {
      assert ps[..at] == ps && ps + [] == ps;
      PassSkipsWaiting(x, ps, []);
    }
    PassCommits(x, pending);
  }

  /** the pending record under the tag */
  function Tagged(ps: seq<Pending>, tag: Tag): (p: Option<Pending>)
    ensures p.Some? ==> p.value in ps && p.value.tag == tag
    ensures p.None? ==> forall q :: q in ps ==> q.tag != tag
  {
    if ps == [] then None else if ps[0].tag == tag then Some(ps[0]) else Tagged(ps[1..], tag)
  }

  class Committer {
    const crypto: Crypto
    const mode: SyncMode
    const policy: ConflictPolicy
    /** the pending commits in the order of their row ids; a dropped one leaves */
    var pending: seq<Pending>
    var rejected: map<Tag, Hash>
    var pushing: bool
    var forkSuspected: bool
    var sent: seq<Pending>

    constructor (crypto: Crypto, mode: SyncMode, policy: ConflictPolicy)
      ensures pending == [] && rejected == map[] && !pushing && !forkSuspected && sent == []
      ensures this.crypto == crypto && this.mode == mode && this.policy == policy
    {
      this.crypto, this.mode, this.policy := crypto, mode, policy;
      pending, rejected, pushing, forkSuspected, sent := [], map[], false, false, [];
    }

    method TryCommitPending(v: View)
      requires Consistent(v)
      modifies this`pending, this`pushing, this`sent
      ensures old(pushing) || forkSuspected ==> pushing == old(pushing) && pending == old(pending) && sent == old(sent)
      ensures !old(pushing) && !forkSuspected ==>
                && (if pushing then sent != [] && sent[..|sent| - 1] == old(sent) else sent == old(sent))
                && Attempt(Context(crypto, mode, policy, v, rejected), old(pending), pending,
                           if pushing then Some(sent[|sent| - 1]) else None)
    {
      if !pushing && !forkSuspected {
        var ps, commit := Commit(Context(crypto, mode, policy, v, rejected), pending);
        pending := ps;
        if commit.Some? {
          pushing, sent := true, sent + [commit.value];
        }
      }
    }

    /** the server refused the record and there is nothing to fetch: it is marked as it is, and the loop goes on */
    method OnRejected(tag: Tag, v: View)
      requires Consistent(v)
      modifies this`pending, this`pushing, this`sent, this`rejected
      ensures tag == [] || Tagged(old(pending), tag).None? ==> rejected == old(rejected)
      ensures tag != [] && Tagged(old(pending), tag).Some? ==>
                rejected == old(rejected)[tag := crypto.hash(Tagged(old(pending), tag).value)]
      ensures forkSuspected ==> !pushing && pending == old(pending) && sent == old(sent)
      ensures !forkSuspected ==>
                && (if pushing then sent != [] && sent[..|sent| - 1] == old(sent) else sent == old(sent))
                && Attempt(Context(crypto, mode, policy, v, rejected), old(pending), pending,
                           if pushing then Some(sent[|sent| - 1]) else None)
    {
      pushing := false;
      if tag != [] && Tagged(pending, tag).Some? {
        rejected := rejected[tag := crypto.hash(Tagged(pending, tag).value)];
      }
      TryCommitPending(v);
    }

    /** new records, a completed fetch or a reconnect: everything gets another try */
    method ClearRejections()
      modifies this`rejected
      ensures rejected == map[]
    {
      rejected := map[];
    }
  }
}
