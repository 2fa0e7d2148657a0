/**
 * The seen rules by which a server takes or refuses a commit
 * (spsync/server/server_lib/chain_sync.cpp), and the client's rebase policy against them
 * (spsync/engine/rebase_policy.hpp): on the same log a record needs no rebase and has no
 * conflict exactly when the server takes it, but for two cases that the policy does not see.
 */
module ServerRules {
  import opened Common
  import opened Octets
  import opened CommitLoop

  // ---------------------------------------------------------------- the log

  /** a committed record; its sequence is its position in the log, counted from one */
  datatype Entry = Entry(tag: Tag, hash: Hash, kind: RecordType, op: OctetVector, changes: seq<Change>)

  type Log = seq<Entry>

  predicate Special(e: Entry) {
    e.kind == UserChangeRecord || e.kind == SegmentRecord
  }

  predicate Adds(e: Entry) {
    e.kind == DataChangeRecord && exists i :: 0 <= i < |e.changes| && e.changes[i].previous == []
  }

  predicate ChangesOid(e: Entry, oid: ObjectId) {
    e.kind == DataChangeRecord && exists i :: 0 <= i < |e.changes| && e.changes[i].oid == oid
  }

  ghost predicate LogOk(log: Log) {
    && (forall i :: 0 <= i < |log| ==> log[i].tag != [])
    && (forall i, j :: 0 <= i < j < |log| ==> log[i].tag != log[j].tag)
  }

  /** n is the sequence of the last entry of the kind, 0 without one */
  ghost predicate IsLast(log: Log, p: Entry -> bool, n: nat) {
    n <= |log| && (n > 0 ==> p(log[n - 1])) && forall i :: n <= i < |log| ==> !p(log[i])
  }

  ghost predicate IsHead(log: Log, head: BlockId) {
    head == if log == [] then BlockId(0, []) else BlockId(|log|, log[|log| - 1].hash)
  }

  /** n is the sequence of the last entry that changes the object, 0 without one */
  ghost predicate IsLastOf(log: Log, oid: ObjectId, n: nat) {
    IsLast(log, e => ChangesOid(e, oid), n)
  }

  ghost predicate IsNewestOf(log: Log, oid: ObjectId, t: Tag) {
    exists n: nat :: IsLastOf(log, oid, n) && 0 < n && log[n - 1].tag == t
  }

  /** the client has the same log in sync */
  ghost predicate InStep(v: View, log: Log) {
    && IsHead(log, v.head) && IsLast(log, Adds, v.lastDataAdd)
    && (exists n: nat :: IsLast(log, Special, n) && v.newestSpecial == if n == 0 then [] else log[n - 1].tag)
    && (forall oid :: oid in v.newest ==> IsNewestOf(log, oid, v.newest[oid]))
    && (forall oid, i :: 0 <= i < |log| && ChangesOid(log[i], oid) ==> oid in v.newest)
  }

  lemma OneLast(log: Log, p: Entry -> bool, n: nat, k: nat)
    requires IsLast(log, p, n) && IsLast(log, p, k)
    ensures n == k
  {
  }

  lemma InStepConsistent(v: View, log: Log)
    requires InStep(v, log) && LogOk(log)
    ensures Consistent(v)
  {
  }

  // ---------------------------------------------------------------- the rules

  /** every change builds on what is there: an add on nothing, any other on some version */
  ghost predicate Sound(v: View, d: Draft) {
    d.kind == DataChangeRecord ==>
      forall i :: 0 <= i < |d.changes| ==> (d.changes[i].previous == [] <==> d.changes[i].oid !in v.newest)
  }

  /** what the server takes, in the client's terms */
  ghost predicate Acceptable(mode: SyncMode, v: View, d: Draft) {
    || (d.kind == DataChangeRecord && d.changes == [])
    || (!NeedsRebase(mode, v, d) && !HasConflicts(v, d) && Sound(v, d))
  }

  method FindByTag(log: Log, t: Tag) returns (n: nat)
    requires LogOk(log)
    ensures n <= |log| && (n > 0 ==> log[n - 1].tag == t)
    ensures n == 0 ==> forall i :: 0 <= i < |log| ==> log[i].tag != t
  {
    n := 0;
    for i := 0 to |log|
      invariant n <= i && (n > 0 ==> log[n - 1].tag == t)
      invariant n == 0 ==> forall k :: 0 <= k < i ==> log[k].tag != t
    {
      if log[i].tag == t {
        n := i + 1;
      }
    }
  }

  /** the last entry that changes the object */
  method FindLast(log: Log, oid: ObjectId) returns (n: nat)
    ensures IsLastOf(log, oid, n)
  {
    n := |log|;
    while n > 0 && !ChangesOid(log[n - 1], oid)
      invariant n <= |log| && forall i :: n <= i < |log| ==> !ChangesOid(log[i], oid)
    {
      n := n - 1;
    }
  }

  /** the reference is a special record of the log, and no other came after it */
  method CheckSpecialSeen(mode: SyncMode, log: Log, lastSpecial: nat, ref: Tag) returns (ok: bool)
    requires LogOk(log) && IsLast(log, Special, lastSpecial)
    ensures ok <==> (AtLeastSpecial(mode) && lastSpecial != 0 ==> ref == log[lastSpecial - 1].tag)
  {
    ok := true;
    if AtLeastSpecial(mode) && lastSpecial != 0 {
      var n := FindByTag(log, ref);
      ok := n != 0 && Special(log[n - 1]) && n >= lastSpecial;
    }
  }

  function HeadOf(log: Log): (head: BlockId)
    ensures IsHead(log, head)
  {
    if log == [] then BlockId(0, []) else BlockId(|log|, log[|log| - 1].hash)
  }

  /** an add has to have seen the adds before it where the mode says so */
  predicate AddSeen(mode: SyncMode, lastAdd: nat, d: Draft) {
    mode == RequireDataAddRemoveSeen ==> lastAdd == 0 || lastAdd <= d.lastSeen.sequence
  }

  /** the last special record was referenced, as the mode asks */
  ghost predicate SpecialSeen(mode: SyncMode, v: View, d: Draft) {
    AtLeastSpecial(mode) && v.newestSpecial != [] ==> d.specialRef == v.newestSpecial
  }

  /** one change of a record passes */
  ghost predicate ChangePasses(mode: SyncMode, v: View, d: Draft, c: Change) {
    && (if c.previous == [] then c.oid !in v.newest else c.oid in v.newest && v.newest[c.oid] == c.previous)
    && (if mode == RequireAllSeen then d.lastSeen == v.head
        else SpecialSeen(mode, v, d) && (c.previous == [] ==> AddSeen(mode, v.lastDataAdd, d)))
  }

  lemma FoundIsNewest(v: View, log: Log, oid: ObjectId, n: nat)
    requires InStep(v, log) && IsLastOf(log, oid, n)
    ensures oid in v.newest <==> n != 0
    ensures n != 0 ==> v.newest[oid] == log[n - 1].tag
  {
    if oid in v.newest {
      var k: nat :| IsLastOf(log, oid, k) && 0 < k && log[k - 1].tag == v.newest[oid];
      OneLast(log, e => ChangesOid(e, oid), n, k);
    }
  }

  lemma SpecialIs(v: View, log: Log, lastSpecial: nat)
    requires InStep(v, log) && LogOk(log) && IsLast(log, Special, lastSpecial)
    ensures v.newestSpecial == if lastSpecial == 0 then [] else log[lastSpecial - 1].tag
    ensures v.newestSpecial != [] <==> lastSpecial != 0
  {
    var n: nat :| IsLast(log, Special, n) && v.newestSpecial == if n == 0 then [] else log[n - 1].tag;
    OneLast(log, Special, n, lastSpecial);
  }

  method CheckChange(mode: SyncMode, log: Log, lastAdd: nat, lastSpecial: nat, d: Draft, c: Change, ghost v: View)
    returns (ok: bool, adds: bool)
    requires LogOk(log) && InStep(v, log) && IsLast(log, Special, lastSpecial) && IsLast(log, Adds, lastAdd)
    ensures ok <==> ChangePasses(mode, v, d, c)
    ensures ok ==> adds == (c.previous == [])
  {
    var n := FindLast(log, c.oid);
    FoundIsNewest(v, log, c.oid, n);
    SpecialIs(v, log, lastSpecial);
    OneLast(log, Adds, lastAdd, v.lastDataAdd);
    ok, adds := false, false;
    if n == 0 && c.previous == [] {
      adds := true;
      if mode == RequireAllSeen {
        ok := d.lastSeen == HeadOf(log);
      } else {
        ok := CheckSpecialSeen(mode, log, lastSpecial, d.specialRef);
        ok := ok && (mode == RequireDataAddRemoveSeen ==> !(lastAdd != 0 && lastAdd > d.lastSeen.sequence));
      }
    } else if n != 0 && log[n - 1].tag == c.previous {
      if mode == RequireAllSeen {
        ok := d.lastSeen == HeadOf(log);
      } else {
        ok := CheckSpecialSeen(mode, log, lastSpecial, d.specialRef);
      }
    }
  }

  /** the changes of a record in order, up to the first that does not pass */
  method CheckChanges(mode: SyncMode, log: Log, lastAdd: nat, lastSpecial: nat, d: Draft, ghost v: View)
    returns (ok: bool, adds: bool)
    requires LogOk(log) && InStep(v, log) && IsLast(log, Special, lastSpecial) && IsLast(log, Adds, lastAdd)
    ensures ok <==> forall i :: 0 <= i < |d.changes| ==> ChangePasses(mode, v, d, d.changes[i])
    ensures ok ==> adds == HasAdds(d)
  {
    ok, adds := true, false;
    var i := 0;
    while i < |d.changes| && ok
      invariant i <= |d.changes|
      invariant ok ==> forall k :: 0 <= k < i ==> ChangePasses(mode, v, d, d.changes[k])
      invariant ok ==> adds == exists k :: 0 <= k < i && d.changes[k].previous == []
      invariant !ok ==> exists k :: 0 <= k < i && !ChangePasses(mode, v, d, d.changes[k])
      decreases |d.changes| - i
    {
      var passes, isAdd := CheckChange(mode, log, lastAdd, lastSpecial, d, d.changes[i], v);
      ok, adds := passes, adds || isAdd;
      i := i + 1;
    }
  }

  /** all changes pass exactly when there are none, or the record is settled and sound */
  lemma ChangesPassIff(mode: SyncMode, v: View, d: Draft)
    requires d.kind == DataChangeRecord
    ensures (forall i :: 0 <= i < |d.changes| ==> ChangePasses(mode, v, d, d.changes[i])) <==> Acceptable(mode, v, d)
  {
    if d.changes != [] && forall i :: 0 <= i < |d.changes| ==> ChangePasses(mode, v, d, d.changes[i]) {
      assert ChangePasses(mode, v, d, d.changes[0]);
    }
    if d.changes != [] && Acceptable(mode, v, d) {
      forall i | 0 <= i < |d.changes|
        ensures ChangePasses(mode, v, d, d.changes[i])
      {
        assert !Conflicting(v, d.changes[i]);
      }
    }
  }

  /** the server's seen rules take exactly what the client's policy leaves alone, where its changes are sound */
  method CheckRules(mode: SyncMode, log: Log, lastAdd: nat, lastSpecial: nat, d: Draft, ghost v: View)
    returns (ok: bool, adds: bool)
    requires LogOk(log) && InStep(v, log) && IsLast(log, Special, lastSpecial) && IsLast(log, Adds, lastAdd)
    ensures ok <==> Acceptable(mode, v, d)
    ensures ok ==> adds == (d.kind == DataChangeRecord && HasAdds(d))
  {
    SpecialIs(v, log, lastSpecial);
    adds := false;
    if d.kind == DataChangeRecord {
      ok, adds := CheckChanges(mode, log, lastAdd, lastSpecial, d, v);
      ChangesPassIff(mode, v, d);
    } else if d.kind == UserChangeRecord {
      if mode == RequireAllSeen {
        ok := d.lastSeen == HeadOf(log);
      } else {
        ok := CheckSpecialSeen(mode, log, lastSpecial, d.specialRef);
      }
    } else {
      ok := AtLeastSpecial(mode) ==> d.lastSeen == HeadOf(log);
    }
  }

  // ---------------------------------------------------------------- a commit

  ghost predicate Fresh(log: Log, p: Pending) {
    && (forall i :: 0 <= i < |log| ==> log[i].tag != p.tag)
    && (p.draft.op != [] ==> forall i :: 0 <= i < |log| ==> log[i].op != p.draft.op)
  }

  method CheckFresh(log: Log, p: Pending) returns (ok: bool)
    ensures ok <==> Fresh(log, p)
  {
    ok := true;
    for i := 0 to |log|
      invariant ok <==> Fresh(log[..i], p)
    {
      assert log[..i + 1] == log[..i] + [log[i]];
      if log[i].tag == p.tag || (p.draft.op != [] && log[i].op == p.draft.op) {
        ok := false;
      }
    }
    assert log[..|log|] == log;
  }

  function EntryOf(p: Pending, hash: Hash): Entry {
    Entry(p.tag, hash, p.draft.kind, p.draft.op, p.draft.changes)
  }

  lemma LastAfter(log: Log, p: Entry -> bool, n: nat, e: Entry)
    requires IsLast(log, p, n)
    ensures IsLast(log + [e], p, if p(e) then |log| + 1 else n)
  {
  }

  lemma LogGrows(log: Log, p: Pending, hash: Hash)
    requires LogOk(log) && Fresh(log, p) && p.tag != []
    ensures LogOk(log + [EntryOf(p, hash)])
    ensures Adds(EntryOf(p, hash)) <==> p.draft.kind == DataChangeRecord && HasAdds(p.draft)
  {
  }

  class ChainSync {
    const mode: SyncMode
    var log: Log
    /** the sequences of the newest data add and of the newest special record, kept up to date */
    var lastAdd: nat
    var lastSpecial: nat

    ghost predicate Valid()
      reads this
    {
      LogOk(log) && IsLast(log, Adds, lastAdd) && IsLast(log, Special, lastSpecial)
    }

    constructor (mode: SyncMode)
      ensures Valid() && this.mode == mode && log == []
    {
      this.mode := mode;
      log, lastAdd, lastSpecial := [], 0, 0;
    }

    /** a commit of a client that has the server's log in sync */
    method CommitBlock(p: Pending, hash: Hash, ghost v: View) returns (ok: bool)
      requires Valid() && InStep(v, log) && p.tag != []
      modifies this
      ensures Valid()
      ensures ok <==> old(Fresh(log, p)) && Acceptable(mode, v, p.draft)
      ensures log == if ok then old(log) + [EntryOf(p, hash)] else old(log)
    {
      ok := CheckFresh(log, p);
      if ok {
        var adds;
        ok, adds := CheckRules(mode, log, lastAdd, lastSpecial, p.draft, v);
        if ok {
          var e := EntryOf(p, hash);
          LogGrows(log, p, hash);
          LastAfter(log, Adds, lastAdd, e);
          LastAfter(log, Special, lastSpecial, e);
          if adds {
            lastAdd := |log| + 1;
          } else if Special(e) {
            lastSpecial := |log| + 1;
          }
          log := log + [e];
        }
      }
    }
  }

  // ---------------------------------------------------------------- every log has a view

  lemma SomeLast(log: Log, p: Entry -> bool) returns (n: nat)
    ensures IsLast(log, p, n)
  {
    n := |log|;
    while n > 0 && !p(log[n - 1])
      invariant n <= |log| && forall i :: n <= i < |log| ==> !p(log[i])
    {
      n := n - 1;
    }
  }

  ghost function OidsOf(e: Entry): set<ObjectId> {
    set i | 0 <= i < |e.changes| && e.kind == DataChangeRecord :: e.changes[i].oid
  }

  ghost function Tagged(oids: set<ObjectId>, t: Tag): map<ObjectId, Tag> {
    map oid | oid in oids :: t
  }

  ghost function NewestIn(log: Log): map<ObjectId, Tag> {
    if log == [] then map[]
    else NewestIn(log[..|log| - 1]) + Tagged(OidsOf(log[|log| - 1]), log[|log| - 1].tag)
  }

  lemma {:induction false} NewestInIs(log: Log, oid: ObjectId)
    ensures oid in NewestIn(log) ==> IsNewestOf(log, oid, NewestIn(log)[oid])
    ensures oid !in NewestIn(log) ==> IsLastOf(log, oid, 0)
  {
    if log != [] {
      var m := |log| - 1;
      NewestInIs(log[..m], oid);
      assert oid in OidsOf(log[m]) <==> ChangesOid(log[m], oid);
      if ChangesOid(log[m], oid) {
        assert IsLastOf(log, oid, m + 1);
      } else if oid in NewestIn(log) {
        var n: nat :| IsLastOf(log[..m], oid, n) && 0 < n && log[..m][n - 1].tag == NewestIn(log[..m])[oid];
        assert IsLastOf(log, oid, n);
      }
    }
  }

  /** whatever is in the log, a client that has it in sync has a view of it */
  lemma SomeView(log: Log) returns (v: View)
    ensures InStep(v, log)
  {
    var add := SomeLast(log, Adds);
    var special := SomeLast(log, Special);
    v := View(HeadOf(log), if special == 0 then [] else log[special - 1].tag, add, NewestIn(log));
    forall oid
      ensures oid in v.newest ==> IsNewestOf(log, oid, v.newest[oid])
      ensures oid !in v.newest ==> IsLastOf(log, oid, 0)
    {
      NewestInIs(log, oid);
    }
  }

  // ---------------------------------------------------------------- the client against it

  /**
   * What the commit loop sends on the view of the server's log is taken: unless its record or operation is
   * there already, or one of its changes is not sound.
   */
  lemma SentIsTaken(x: Context, log: Log, ps: seq<Pending>, qs: seq<Pending>, p: Pending)
    requires LogOk(log) && InStep(x.view, log) && Committed(x, ps, qs, Some(p))
    ensures Consistent(x.view)
    ensures Sound(x.view, p.draft) ==> Acceptable(x.mode, x.view, p.draft)
    ensures Acceptable(x.mode, x.view, p.draft) && p.draft.changes != [] ==> Sound(x.view, p.draft)
  {
    InStepConsistent(x.view, log);
    var n: nat :| Dealt(x, ps, qs, Some(p), n);
  }

  /** a rebuilt record is taken as long as nothing else came in between, under the same condition */
  lemma RebuiltIsTaken(x: Context, log: Log, p: Pending, r: Pending)
    requires LogOk(log) && InStep(x.view, log) && Moved(x, p, r) && Sound(x.view, p.draft)
    ensures Acceptable(x.mode, x.view, r.draft)
  {
    InStepConsistent(x.view, log);
    if r.draft.kind == DataChangeRecord {
      forall i | 0 <= i < |r.draft.changes|
        ensures !Conflicting(x.view, r.draft.changes[i])
        ensures r.draft.changes[i].previous == [] <==> r.draft.changes[i].oid !in x.view.newest
      {
        assert OnNewest(x.view, p.draft.changes[i], r.draft.changes[i]);
      }
    }
  }

  /**
   * The policy does not see that somebody else added the object meanwhile: such an add is left as it is, and the
   * server refuses it in every mode.
   */
  lemma AddOfKnownRefused(mode: SyncMode, v: View, d: Draft, oid: ObjectId)
    requires d.kind == DataChangeRecord && d.changes == [Change(oid, [])] && oid in v.newest && OnHead(v, d)
    requires v.lastDataAdd <= v.head.sequence
    ensures !NeedsRebase(mode, v, d) && !HasConflicts(v, d) && !Acceptable(mode, v, d)
  {
    assert !Sound(v, d) by {
      assert d.changes[0].previous == [];
    }
  }
}
