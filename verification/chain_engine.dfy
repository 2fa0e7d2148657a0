/**
 * The engine's handlers for incoming blocks and commit answers (spsync/engine/sync_engine.cpp)
 * as operations on the record table. A statement that would break a UNIQUE constraint fails and
 * ends the handler.
 */
module ChainEngine {
  import opened Common
  import opened Octets
  import opened ChainAcceptance

  /** the stored block says the position the columns say */
  ghost predicate BlobAgrees(r: Row) {
    r.blob == Block(r.blob.record, r.at, r.parent)
  }

  /** hashing and keys, and the trusted anchor of the configuration */
  datatype Setup = Setup(crypto: Crypto, anchor: BlockId)

  /**
   * What the proofs keep beside the table. Strays are parked rows whose stored block still says
   * another position than the server assigned; tries are the retries of parked rows so far, and
   * misplaced says that one of them put a row in sync where it does not continue the chain.
   */
  datatype Ledger = Ledger(next: nat, strays: set<nat>, misplaced: bool, tries: seq<Try>)

  /** a parked row is checked again, in the state the engine was in */
  datatype Try = Try(state: State, row: nat)

  ghost predicate HashColumn(c: Crypto, r: Row) {
    r.at >= 1 && r.hash != [] && r.hash == c.hash(Block(r.blob.record, r.at, r.parent))
  }

  ghost predicate Sound(e: Setup, t: Table, g: Ledger) {
    Unique(t) && Kept(e, t, g)
  }

  /** in sync and parked rows are hashed where they are, and only strays are stored for another place */
  ghost predicate RowsOk(e: Setup, t: Table, strays: set<nat>) {
    && (forall k :: Synced(t, k) || Parked(t, k) ==> HashColumn(e.crypto, t[k]))
    && (forall k :: Parked(t, k) && k !in strays ==> BlobAgrees(t[k]))
  }

  ghost predicate WentAstray(e: Setup, tries: seq<Try>) {
    exists i :: 0 <= i < |tries| && Astray(e, tries[i].state, tries[i].row)
  }

  ghost predicate Kept(e: Setup, t: Table, g: Ledger) {
    && (forall k :: k in t ==> k < g.next) && RowsOk(e, t, g.strays)
    && (g.misplaced <==> WentAstray(e, g.tries))
    && (!g.misplaced ==> ChainGood(t, e.anchor))
  }

  // ---------------------------------------------------------------- single row changes

  /** a row that is neither in sync before nor after the change touches no chain */
  lemma ReplaceKept(e: Setup, t: Table, g: Ledger, g': Ledger, k: nat, row: Row)
    requires Kept(e, t, g) && !Synced(t, k) && row.state != InSync
    requires k < g'.next && g.next <= g'.next && g.strays <= g'.strays && g.misplaced == g'.misplaced
    requires g.tries == g'.tries
    requires row.state == PendingSync ==> HashColumn(e.crypto, row) && (BlobAgrees(row) || k in g'.strays)
    ensures Kept(e, t[k := row], g') && Grows(t, t[k := row])
  {
    var t' := t[k := row];
    assert forall j :: Synced(t', j) ==> Synced(t, j) && t'[j] == t[j];
    if !g.misplaced {
      SameSyncedGood(t, t', e.anchor);
    }
  }

  /** a row that goes in sync where it continues the chain */
  lemma EnterKept(e: Setup, t: Table, g: Ledger, next: nat, k: nat, row: Row)
    requires Kept(e, t, g) && !Synced(t, k) && row.state == InSync
    requires k < next && g.next <= next && HashColumn(e.crypto, row)
    requires !g.misplaced ==> Continues(t, e.anchor, row.at, row.hash, row.parent)
    ensures Kept(e, t[k := row], g.(next := next)) && Grows(t, t[k := row])
  {
    var t' := t[k := row];
    assert forall j :: Synced(t', j) && j != k ==> Synced(t, j) && t'[j] == t[j];
    if !g.misplaced {
      EntersGood(t, t', e.anchor, k);
    }
  }

  /** right after an in sync record the chain continues */
  lemma AfterSynced(t: Table, anchor: BlockId, k: nat, h: Hash)
    requires ChainGood(t, anchor) && Synced(t, k)
    ensures Continues(t, anchor, t[k].at + 1, h, t[k].hash)
  {
    assert Continues(t, anchor, t[k].at, t[k].hash, t[k].parent);
    assert PrecededBy(t, t[k].at + 1, t[k].hash);
    if anchor.Set() {
      assert HasHash(t, anchor.hash);
    }
  }

  lemma GrowsTransitive(a: Table, b: Table, c: Table)
    requires Grows(a, b) && Grows(b, c)
    ensures Grows(a, c)
  {
    forall k | Synced(a, k)
      ensures k in c && c[k] == a[k]
    {
      assert Synced(b, k);
    }
  }

  /** the same rows, some parked ones in sync now */
  ghost predicate Promotes(t: Table, t': Table) {
    t'.Keys == t.Keys && forall j :: j in t ==> t'[j] == t[j] || (Parked(t, j) && t'[j] == t[j].(state := InSync))
  }

  lemma PromotesTransitive(a: Table, b: Table, c: Table)
    requires Promotes(a, b) && Promotes(b, c)
    ensures Promotes(a, c)
  {
    forall j | j in a
      ensures c[j] == a[j] || (Parked(a, j) && c[j] == a[j].(state := InSync))
    {
      assert j in b && (b[j] == a[j] || b[j] == a[j].(state := InSync));
    }
  }

  ghost function ParkedRows(t: Table): set<nat> {
    set k | k in t && Parked(t, k)
  }

  /** set_state of a parked row to in sync */
  method Promote(e: Setup, t: Table, ghost g: Ledger, k: nat)
    returns (ok: bool, t': Table)
    requires Sound(e, t, g) && Parked(t, k)
    requires !g.misplaced ==> Continues(t, e.anchor, t[k].at, t[k].hash, t[k].parent)
    ensures Sound(e, t', g) && Grows(t, t') && Promotes(t, t') && ok == !Taken(t, t[k].at)
    ensures t' == if ok then t[k := t[k].(state := InSync)] else t
  {
    FreeIff(t, k);
    var row := t[k].(state := InSync);
    ok, t' := Unique(t[k := row]), t;
    if ok {
      EnterKept(e, t, g, g.next, k, row);
      t' := t[k := row];
    }
  }

  /** the walk over the parked records stopped at last: none waits behind it, or one that links elsewhere */
  ghost predicate StopsAt(t: Table, last: nat) {
    && Synced(t, last)
    && ((forall k :: Parked(t, k) ==> t[k].at != t[last].at + 1) ||
        (exists k :: Parked(t, k) && t[k].at == t[last].at + 1 && t[k].parent != t[last].hash))
  }

  /** the walk can stop before a parked record that links exactly when a rival is parked there, under another parent */
  lemma LeftBehindIff(t: Table, last: nat, k: nat)
    requires Synced(t, last) && Parked(t, k) && t[k].at == t[last].at + 1 && t[k].parent == t[last].hash
    ensures StopsAt(t, last) <==> exists j :: Parked(t, j) && t[j].at == t[k].at && t[j].parent != t[k].parent
  {
    assert !(forall j :: Parked(t, j) ==> t[j].at != t[last].at + 1);
  }

  /** a parked record is at a sequence that a confirmed one holds: it cannot go in sync */
  ghost predicate Collides(t: Table) {
    exists k :: Parked(t, k) && Taken(t, t[k].at)
  }

  /** what went in sync behind start are parked records up to the last one */
  ghost predicate FollowUp(t: Table, t': Table, start: nat, last: nat)
    requires start in t
  {
    && Promotes(t, t') && Synced(t', last) && t[start].at <= t'[last].at
    && forall j :: Parked(t, j) && Synced(t', j) ==> t[start].at < t[j].at <= t'[last].at
  }

  lemma PromotedFewer(t: Table, k: nat)
    requires Parked(t, k)
    ensures ParkedRows(t[k := t[k].(state := InSync)]) == ParkedRows(t) - {k}
  {
  }

  /** parked records that link to the one that just went in sync follow it */
  method CheckPendingRecords(e: Setup, t: Table, ghost g: Ledger, start: nat)
    returns (ok: bool, t': Table)
    requires Sound(e, t, g) && Synced(t, start)
    ensures Sound(e, t', g) && Grows(t, t') && Promotes(t, t')
    ensures ok ==> exists last :: FollowUp(t, t', start, last) && StopsAt(t', last)
    ensures !ok ==> Collides(t')
  {
    var last := start;
    ok, t' := true, t;
    while ok
      invariant Sound(e, t', g) && Grows(t, t') && FollowUp(t, t', start, last) && (!ok ==> Collides(t'))
      decreases ParkedRows(t'), ok
    {
      var k := FindParked(t', t'[last].at + 1);
      if k.None? || t'[k.value].parent != t'[last].hash {
        assert StopsAt(t', last);
        return;
      }
      if !g.misplaced {
        AfterSynced(t', e.anchor, last, t'[k.value].hash);
      }
      ghost var before := t';
      PromotedFewer(t', k.value);
      ok, t' := Promote(e, t', g, k.value);
      GrowsTransitive(t, before, t');
      PromotesTransitive(t, before, t');
      if ok {
        FollowNext(t, before, t', start, last, k.value);
        last := k.value;
      }
    }
  }

  lemma FollowNext(t: Table, b: Table, t': Table, start: nat, last: nat, k: nat)
    requires start in t && FollowUp(t, b, start, last) && Parked(b, k) && b[k].at == b[last].at + 1
    requires t' == b[k := b[k].(state := InSync)] && Promotes(t, t')
    ensures FollowUp(t, t', start, k)
  {
    forall j | Parked(t, j) && Synced(t', j)
      ensures t[start].at < t[j].at <= t'[k].at
    {
      if j != k {
        assert Synced(b, j);
      }
    }
  }

  /** a parked record at the sequence, any of them */
  method FindParked(t: Table, s: nat) returns (k: Option<nat>)
    ensures k.Some? ==> Parked(t, k.value) && t[k.value].at == s
    ensures k.None? ==> forall j :: Parked(t, j) ==> t[j].at != s
  {
    if j :| j in t && Parked(t, j) && t[j].at == s {
      k := Some(j);
    } else {
      k := None;
    }
  }

  function ParkedBelow(t: Table, limit: nat): set<nat> {
    set k | k in t && Parked(t, k) && t[k].at < limit
  }

  lemma PromotedBelow(t: Table, k: nat, limit: nat)
    requires Parked(t, k)
    ensures ParkedBelow(t[k := t[k].(state := InSync)], limit) == ParkedBelow(t, limit) - {k}
  {
  }

  ghost predicate PromotesBelow(t: Table, t': Table, limit: nat) {
    Promotes(t, t') && forall j :: Parked(t, j) && Synced(t', j) ==> t[j].at < limit
  }

  lemma BelowNext(t: Table, b: Table, t': Table, limit: nat, k: nat)
    requires PromotesBelow(t, b, limit) && Parked(b, k) && b[k].at < limit
    requires t' == b || t' == b[k := b[k].(state := InSync)]
    ensures PromotesBelow(t, t', limit)
  {
    assert k in t && t[k] == b[k];
    forall j | Parked(t, j) && Synced(t', j)
      ensures t[j].at < limit
    {
      if j != k {
        assert Synced(b, j);
      }
    }
  }

  /** retained records that arrived before the anchor stand on their own once it is held */
  method PromotePreAnchorRecords(e: Setup, t: Table, ghost g: Ledger, a: nat) returns (ok: bool, t': Table)
    requires Sound(e, t, g) && Synced(t, a)
    ensures Sound(e, t', g) && Grows(t, t') && Promotes(t, t')
    ensures ok && e.anchor.Set() && t[a].hash == e.anchor.hash ==> ParkedBelow(t', t[a].at) == {}
    ensures if e.anchor.Set() && t[a].hash == e.anchor.hash then PromotesBelow(t, t', t[a].at) else t' == t
    ensures !ok ==> Collides(t')
  {
    ok, t' := true, t;
    if e.anchor.Set() && t[a].hash == e.anchor.hash {
      var limit := t[a].at;
      var left := ParkedBelow(t, limit);
      while left != {} && ok
        invariant Sound(e, t', g) && Grows(t, t') && PromotesBelow(t, t', limit)
        invariant if ok then left == ParkedBelow(t', limit) else Collides(t')
        decreases left, ok
      {
        var k :| k in left;
        assert Synced(t', a) && BelowHash(t', t'[k].at, e.anchor.hash);
        ghost var before := t';
        PromotedBelow(t', k, limit);
        ok, t' := Promote(e, t', g, k);
        GrowsTransitive(t, before, t');
        BelowNext(t, before, t', limit, k);
        left := left - {k};
      }
    }
  }

  /** the walk that began at k ended at the newest of what it put in sync */
  ghost predicate EndsAt(t: Table, t': Table, k: nat, last: nat)
    requires k in t
  {
    && StopsAt(t', last) && t[k].at <= t'[last].at
    && forall j :: Parked(t, j) && Synced(t', j) ==> t[j].at <= t'[last].at
  }

  lemma BothEnd(t: Table, b: Table, t': Table, k: nat, last: nat)
    requires k in t && k in b && b[k] == t[k] && Promotes(t, b) && FollowUp(b, t', k, last) && StopsAt(t', last)
    requires forall j :: Parked(t, j) && Synced(b, j) ==> t[j].at <= t[k].at
    ensures EndsAt(t, t', k, last)
  {
    forall j | Parked(t, j) && Synced(t', j)
      ensures t[j].at <= t'[last].at
    {
      assert j in b && (b[j] == t[j] || b[j] == t[j].(state := InSync));
    }
  }

  /** what waited for a record that went in sync: below it when it is the anchor, and behind it */
  method Settle(e: Setup, t: Table, ghost g: Ledger, k: nat) returns (ok: bool, t': Table)
    requires Sound(e, t, g) && Synced(t, k)
    ensures Sound(e, t', g) && Grows(t, t') && Promotes(t, t')
    ensures if ok then exists last :: EndsAt(t, t', k, last) else Collides(t')
  {
    ok, t' := PromotePreAnchorRecords(e, t, g, k);
    if ok {
      assert Synced(t', k);
      ghost var promoted := t';
      ok, t' := CheckPendingRecords(e, t', g, k);
      GrowsTransitive(t, promoted, t');
      PromotesTransitive(t, promoted, t');
      if ok {
        ghost var last :| FollowUp(promoted, t', k, last) && StopsAt(t', last);
        BothEnd(t, promoted, t', k, last);
      }
    }
  }

  // ---------------------------------------------------------------- the handlers, on the engine's state

  /** the engine's state: the table with its next row id, the keys known, and whether the anchor was contradicted */
  datatype State = State(table: Table, next: nat, keys: set<Key>, contradicted: bool)

  ghost predicate Good(e: Setup, s: State, g: Ledger) {
    Sound(e, s.table, g) && g.next == s.next
  }

  /** an anchored client that is shown another block at the anchor's sequence takes nothing any more */
  function Checked(e: Setup, s: State, b: Block): (RowState, State) {
    (CheckBlock(e.crypto, s.table, e.anchor, s.contradicted, b),
     s.(contradicted := s.contradicted || (AwaitsAnchor(s.table, e.anchor) && Contradicts(e.crypto, e.anchor, b))))
  }

  lemma CheckedEnters(e: Setup, s: State, g: Ledger, b: Block)
    requires Good(e, s, g) && Checked(e, s, b).0 == InSync
    ensures Continues(s.table, e.anchor, b.sequence, e.crypto.hash(b), b.parent)
  {
    CheckedContinues(e.crypto, s.table, e.anchor, s.contradicted, b);
  }

  function ReceivedRow(e: Setup, b: Block, state: RowState): Row {
    Row(b, b.sequence, e.crypto.hash(b), b.parent, state)
  }

  /** write a row when no UNIQUE constraint is against it; the statement fails otherwise */
  method WriteRow(e: Setup, s: State, ghost g: Ledger, ghost g': Ledger, k: nat, row: Row) returns (ok: bool, s': State)
    requires Good(e, s, g) && !Synced(s.table, k) && k <= s.next
    requires g' == g.(next := if k < s.next then s.next else k + 1, strays := g'.strays) && g.strays <= g'.strays
    requires row.state == PendingSync ==> HashColumn(e.crypto, row) && (BlobAgrees(row) || k in g'.strays)
    requires row.state == InSync ==>
               && HashColumn(e.crypto, row) && g'.strays == g.strays
               && (!g.misplaced ==> Continues(s.table, e.anchor, row.at, row.hash, row.parent))
    ensures Grows(s.table, s'.table) && ok == Unique(s.table[k := row])
    ensures if ok then Good(e, s', g') && s' == s.(table := s.table[k := row], next := g'.next)
            else Good(e, s', g) && s' == s
  {
    ok, s' := Unique(s.table[k := row]), s;
    if ok {
      if row.state == InSync {
        EnterKept(e, s.table, g, g'.next, k, row);
      } else {
        ReplaceKept(e, s.table, g, g', k, row);
      }
      s' := s.(table := s.table[k := row], next := if k < s.next then s.next else k + 1);
    }
  }

  /** after the anchor was contradicted nothing goes in sync any more */
  ghost predicate Halts(s: State, s': State) {
    s.contradicted ==> s'.contradicted && forall k :: Synced(s'.table, k) ==> Synced(s.table, k)
  }

  /**
   * What a readable block that nobody knows yet does: a row in the state the check says, unless that breaks a
   * UNIQUE constraint. When it goes in sync what waited for it follows, until a sequence is taken already.
   */
  ghost predicate Took(e: Setup, s: State, b: Block, ok: bool, s': State) {
    var (state, checked) := Checked(e, s, b);
    var written := s.table[s.next := ReceivedRow(e, b, state)];
    && s'.keys == s.keys
    && (if !Unique(written) then !ok && s' == checked
        else
          && s'.next == s.next + 1 && s'.contradicted == checked.contradicted && Promotes(written, s'.table)
          && (if state != InSync then ok && s'.table == written
              else if ok then exists last :: EndsAt(written, s'.table, s.next, last)
              else Collides(s'.table)))
  }

  /** an authentic block: into the table as the chain check says, and what waited for it behind it */
  method VerifyBlock(e: Setup, s: State, ghost g: Ledger, b: Block) returns (ok: bool, s': State, ghost g': Ledger)
    requires Good(e, s, g) && b.sequence >= 1 && e.crypto.hash(b) != []
    ensures Good(e, s', g') && Grows(s.table, s'.table) && g' == g.(next := s'.next) && Took(e, s, b, ok, s')
  {
    var k := s.next;
    var (state, checked) := Checked(e, s, b);
    if state == InSync {
      CheckedEnters(e, s, g, b);
    }
    var row := ReceivedRow(e, b, state);
    assert Block(row.blob.record, row.at, row.parent) == b;
    g' := g.(next := k + 1);
    ok, s' := WriteRow(e, checked, g, g', k, row);
    if !ok {
      g' := g;
    } else if state == InSync {
      ghost var written := s'.table;
      var t;
      ok, t := Settle(e, s'.table, g', k);
      GrowsTransitive(s.table, written, t);
      assert Synced(written, k);
      s' := s'.(table := t);
    }
  }

  // ---------------------------------------------------------------- retries

  ghost predicate Lands(t: Table, anchor: BlockId, k: nat)
    requires k in t
  {
    Continues(t, anchor, t[k].at, t[k].hash, t[k].parent)
  }

  predicate NothingInSync(t: Table) {
    forall k :: k in t ==> !Synced(t, k)
  }

  /** right behind the newest in sync record, and linked to it */
  predicate Follows(t: Table, s: nat, parent: Hash) {
    LastLess(t, s) && PrecededBy(t, s, parent)
  }

  predicate Taken(t: Table, s: nat) {
    exists k :: k in t && Confirmed(t[k].state) && t[k].at == s
  }

  /**
   * What lets a stored block pass: it is the awaited anchor; or it is below the anchor at an unused
   * sequence; or it is a first block and nothing is in sync; or it follows the newest record.
   */
  predicate StoredPasses(e: Setup, t: Table, b: Block) {
    if AwaitsAnchor(t, e.anchor) then e.crypto.hash(b) == e.anchor.hash
    else
      || (e.anchor.Set() && !HasSequence(t, b.sequence) && BelowHash(t, b.sequence, e.anchor.hash))
      || (b.sequence == 1 && b.parent == [] && NothingInSync(t))
      || Follows(t, b.sequence, b.parent)
  }

  /** the same of the position that the row was assigned */
  predicate RowPlaced(e: Setup, t: Table, row: Row) {
    if AwaitsAnchor(t, e.anchor) then row.hash == e.anchor.hash
    else
      || (e.anchor.Set() && BelowHash(t, row.at, e.anchor.hash))
      || (!e.anchor.Set() && row.at == 1 && row.parent == [] && NothingInSync(t))
      || Follows(t, row.at, row.parent)
  }

  /** a row that opens, whose stored block passes although the free position it is assigned does not */
  ghost predicate Astray(e: Setup, s: State, k: nat) {
    && Parked(s.table, k) && !s.contradicted && Opens(e.crypto, s.keys, s.table[k].blob.record)
    && StoredPasses(e, s.table, s.table[k].blob)
    && !Taken(s.table, s.table[k].at) && !RowPlaced(e, s.table, s.table[k])
  }

  lemma PassesIff(e: Setup, s: State, g: Ledger, b: Block)
    requires Good(e, s, g)
    ensures Checked(e, s, b).0 == InSync <==> !s.contradicted && StoredPasses(e, s.table, b)
  {
    assert forall k :: Synced(s.table, k) ==> HashColumn(e.crypto, s.table[k]);
  }

  /** the newest in sync sequence, 0 when nothing is in sync */
  ghost predicate IsNewest(t: Table, n: nat) {
    (n == 0 || HasSequence(t, n)) && forall k :: Synced(t, k) ==> t[k].at <= n
  }

  lemma NewestLess(t: Table, n: nat, s: int)
    requires IsNewest(t, n)
    ensures LastLess(t, s) <==> n < s
  {
  }

  lemma BelowIsUsed(t: Table, n: nat, s: nat, h: Hash)
    requires IsNewest(t, n) && BelowHash(t, s, h)
    ensures s < n
  {
  }

  /** what the check looks at, in terms of the newest sequence */
  lemma CheckedBy(e: Setup, s: State, g: Ledger, b: Block, n: nat)
    requires Good(e, s, g) && IsNewest(s.table, n)
    ensures LastLess(s.table, b.sequence) <==> n < b.sequence
    ensures LastLess(s.table, b.sequence - 1) <==> n < b.sequence - 1
    ensures e.anchor.Set() && BelowHash(s.table, b.sequence, e.anchor.hash) ==> b.sequence < n
    ensures HasHash(s.table, b.parent) ==> b.parent != []
    ensures PrecededBy(s.table, b.sequence, b.parent) ==> HasHash(s.table, b.parent) && b.sequence <= n + 1
  {
    NewestLess(s.table, n, b.sequence);
    NewestLess(s.table, n, b.sequence - 1);
    if e.anchor.Set() && BelowHash(s.table, b.sequence, e.anchor.hash) {
      BelowIsUsed(s.table, n, b.sequence, e.anchor.hash);
    }
    assert forall k :: Synced(s.table, k) ==> HashColumn(e.crypto, s.table[k]);
  }

  /** a block waits exactly when it comes too early: before the anchor, or across a gap with its parent not held */
  lemma ParkedIff(e: Setup, s: State, g: Ledger, b: Block, n: nat)
    requires Good(e, s, g) && IsNewest(s.table, n)
    ensures Checked(e, s, b).0 == PendingSync <==>
            && !s.contradicted
            && if AwaitsAnchor(s.table, e.anchor)
               then e.crypto.hash(b) != e.anchor.hash && b.sequence != e.anchor.sequence
               else n + 1 < b.sequence && !HasHash(s.table, b.parent)
  {
    CheckedBy(e, s, g, b, n);
  }

  /**
   * A block is refused exactly when the anchor was contradicted, or it contradicts the awaited anchor; else when its
   * sequence is used up, its parent is held elsewhere, or it comes next and its parent is not held, unless it may
   * stand below the anchor or be the first.
   */
  lemma RefusedIff(e: Setup, s: State, g: Ledger, b: Block, n: nat)
    requires Good(e, s, g) && IsNewest(s.table, n)
    ensures Checked(e, s, b).0 == Invalid <==>
            || s.contradicted
            || if AwaitsAnchor(s.table, e.anchor)
               then e.crypto.hash(b) != e.anchor.hash && b.sequence == e.anchor.sequence
               else
                 && !(e.anchor.Set() && !HasSequence(s.table, b.sequence)
                      && BelowHash(s.table, b.sequence, e.anchor.hash))
                 && (|| b.sequence <= n
                     || (HasHash(s.table, b.parent) && !PrecededBy(s.table, b.sequence, b.parent))
                     || (b.sequence == n + 1 && !HasHash(s.table, b.parent) && !(n == 0 && b.parent == [])))
  {
    CheckedBy(e, s, g, b, n);
  }

  lemma FreeIff(t: Table, k: nat)
    requires Unique(t) && Parked(t, k)
    ensures Unique(t[k := t[k].(state := InSync)]) <==> !Taken(t, t[k].at)
  {
    var t' := t[k := t[k].(state := InSync)];
    if j :| j in t && Confirmed(t[j].state) && t[j].at == t[k].at {
      assert j != k && j in t' && k in t' && t'[j].at == t'[k].at && Confirmed(t'[j].state) && Confirmed(t'[k].state);
    }
  }

  /** a free position behind one with an in sync record is behind them all, or below the anchor */
  lemma FreeIsBehind(e: Setup, t: Table, s: nat, parent: Hash)
    requires Unique(t) && ChainGood(t, e.anchor) && !Taken(t, s) && s >= 1 && !AwaitsAnchor(t, e.anchor)
    requires e.anchor.Set() ==> !BelowHash(t, s, e.anchor.hash)
    ensures forall j :: Synced(t, j) ==> t[j].at < s
  {
    forall j | Synced(t, j)
      ensures t[j].at < s
    {
      if s <= t[j].at {
        if e.anchor.Set() {
          var a := NoGapToAnchor(t, e.anchor, j, s);
        } else {
          NoGapBelow(t, e.anchor, j, s);
        }
      }
    }
  }

  /** a free position is where the chain goes on exactly when it is one of those places */
  lemma PlacedIff(e: Setup, s: State, g: Ledger, k: nat)
    requires Good(e, s, g) && ChainGood(s.table, e.anchor) && Parked(s.table, k) && !Taken(s.table, s.table[k].at)
    ensures RowPlaced(e, s.table, s.table[k]) <==> Lands(s.table, e.anchor, k)
  {
    var t, row := s.table, s.table[k];
    assert HashColumn(e.crypto, row);
    if e.anchor.Set() && !AwaitsAnchor(t, e.anchor) {
      var a :| a in t && Synced(t, a) && t[a].hash == e.anchor.hash;
      assert row.hash != e.anchor.hash;
    }
    if !AwaitsAnchor(t, e.anchor) && !(e.anchor.Set() && BelowHash(t, row.at, e.anchor.hash)) {
      FreeIsBehind(e, t, row.at, row.parent);
    }
  }

  /** retrying a row breaks the chain exactly when it goes astray */
  lemma RetryBreaksChainIff(e: Setup, s: State, g: Ledger, k: nat)
    requires Good(e, s, g) && !g.misplaced && Parked(s.table, k)
    ensures var t' := s.table[k := s.table[k].(state := InSync)];
            Astray(e, s, k) <==> Fits(e, s, s.keys, k) && Unique(t') && !ChainGood(t', e.anchor)
  {
    var t' := s.table[k := s.table[k].(state := InSync)];
    PassesIff(e, s, g, s.table[k].blob);
    FreeIff(s.table, k);
    assert HashColumn(e.crypto, s.table[k]);
    assert forall j :: Synced(t', j) && j != k ==> Synced(s.table, j) && t'[j] == s.table[j];
    EntersGoodIff(s.table, t', e.anchor, k);
    if !Taken(s.table, s.table[k].at) {
      PlacedIff(e, s, g, k);
    }
  }

  /** only a row whose stored block says another position goes astray */
  lemma AgreeingStays(e: Setup, s: State, k: nat)
    requires Parked(s.table, k) && BlobAgrees(s.table[k]) && HashColumn(e.crypto, s.table[k])
    ensures !Astray(e, s, k)
  {
    var row := s.table[k];
    assert row.blob.sequence == row.at && row.blob.parent == row.parent;
    assert e.crypto.hash(row.blob) == row.hash;
  }

  lemma OneNextPlace(t: Table, s: nat, parent: Hash, s': nat, parent': Hash)
    requires Unique(t)
    ensures Follows(t, s, parent) && Follows(t, s', parent') ==> s == s' && parent == parent'
  {
    if Follows(t, s, parent) && Follows(t, s', parent') {
      var i :| i in t && Synced(t, i) && t[i].at + 1 == s && t[i].hash == parent;
      var j :| j in t && Synced(t, j) && t[j].at + 1 == s' && t[j].hash == parent';
      assert t[i].at == t[j].at;
    }
  }

  /** without an anchor it always does when its stored block passes and its position is free */
  lemma StrayGoesAstrayIff(e: Setup, s: State, g: Ledger, k: nat)
    requires Good(e, s, g) && Parked(s.table, k) && !BlobAgrees(s.table[k]) && !e.anchor.Set()
    ensures Astray(e, s, k) <==> Fits(e, s, s.keys, k) && !Taken(s.table, s.table[k].at)
  {
    var t, row := s.table, s.table[k];
    PassesIff(e, s, g, row.blob);
    if StoredPasses(e, t, row.blob) && RowPlaced(e, t, row) {
      assert row.blob != Block(row.blob.record, row.at, row.parent);
      OneNextPlace(t, row.at, row.parent, row.blob.sequence, row.blob.parent);
    }
  }

  /**
   * A local record's block has no parent. Away from its stored position it goes astray exactly when
   * it was stored as the first and nothing is in sync; or, with the anchor held, when it was stored
   * for an unused sequence below it and its own position is neither below nor next; or when it was
   * stored as the awaited anchor itself.
   */
  lemma LocalStrayIff(e: Setup, s: State, g: Ledger, k: nat)
    requires Good(e, s, g) && Parked(s.table, k) && s.table[k].blob.parent == [] && !BlobAgrees(s.table[k])
    ensures var t, row := s.table, s.table[k];
            Astray(e, s, k) <==>
            && !s.contradicted && Opens(e.crypto, s.keys, row.blob.record) && !Taken(t, row.at)
            && if !e.anchor.Set() then row.blob.sequence == 1 && NothingInSync(t)
               else if AwaitsAnchor(t, e.anchor) then e.crypto.hash(row.blob) == e.anchor.hash != row.hash
               else && !HasSequence(t, row.blob.sequence) && BelowHash(t, row.blob.sequence, e.anchor.hash)
                    && !BelowHash(t, row.at, e.anchor.hash) && !Follows(t, row.at, row.parent)
  {
    var t, row := s.table, s.table[k];
    assert !Follows(t, row.blob.sequence, row.blob.parent) by {
      assert forall j :: Synced(t, j) ==> HashColumn(e.crypto, t[j]);
    }
    if !e.anchor.Set() {
      StrayGoesAstrayIff(e, s, g, k);
      PassesIff(e, s, g, row.blob);
    } else if !AwaitsAnchor(t, e.anchor) {
      assert !NothingInSync(t);
    }
  }

  /** one of the keys opens the row and the check lets its stored block in */
  ghost predicate Fits(e: Setup, s: State, keys: set<Key>, k: nat)
    requires k in s.table
  {
    Opens(e.crypto, keys, s.table[k].blob.record) && Checked(e, s, s.table[k].blob).0 == InSync
  }

  ghost predicate NoneFits(e: Setup, s: State, keys: set<Key>, ks: set<nat>) {
    forall k :: k in ks && Parked(s.table, k) ==> !Fits(e, s, keys, k)
  }

  /** more keys open more, and a contradicted anchor lets nothing in */
  lemma FitsLess(e: Setup, s: State, s': State, keys: set<Key>, k: nat)
    requires s'.table == s.table && (s.contradicted ==> s'.contradicted) && keys <= s.keys && k in s.table
    ensures Fits(e, s', keys, k) ==> Fits(e, s, s.keys, k)
  {
  }

  lemma NoneFitsMore(e: Setup, s: State, s': State, keys: set<Key>, ks: set<nat>, k: nat)
    requires s'.table == s.table && (s.contradicted ==> s'.contradicted) && keys <= s.keys && Parked(s.table, k)
    requires NoneFits(e, s, keys, ks) && !Fits(e, s, s.keys, k)
    ensures NoneFits(e, s', keys, ks + {k})
  {
    forall j | j in ks + {k} && Parked(s'.table, j)
      ensures !Fits(e, s', keys, j)
    {
      if j == k {
        FitsLess(e, s, s', keys, k);
      } else {
        assert !Fits(e, s, keys, j);
      }
    }
  }

  /** what a retry may do: promote parked rows, learn keys; off the chain only through a stray */
  ghost predicate Retried(e: Setup, s: State, g: Ledger, s': State, g': Ledger) {
    && Good(e, s', g') && Grows(s.table, s'.table) && Promotes(s.table, s'.table) && s.keys <= s'.keys
    && g' == g.(misplaced := g'.misplaced, tries := g'.tries) && (g'.misplaced ==> g.misplaced || g.strays != {})
    && Onward(e, s, g, g') && (s.contradicted ==> s'.contradicted && s'.table == s.table)
  }

  /** the stored blocks stay what they were */
  ghost predicate KeepsBlobs(t: Table, t': Table) {
    forall k :: k in t ==> k in t' && t'[k].blob == t[k].blob
  }

  /** a row retried in a state that came after */
  ghost predicate TryFrom(e: Setup, s: State, strays: set<nat>, x: Try) {
    && Parked(x.state.table, x.row) && RowsOk(e, x.state.table, strays)
    && Grows(s.table, x.state.table) && KeepsBlobs(s.table, x.state.table)
  }

  /** the tries so far, and some more since the state given */
  ghost predicate Onward(e: Setup, s: State, g: Ledger, g': Ledger) {
    g.tries <= g'.tries && forall i :: |g.tries| <= i < |g'.tries| ==> TryFrom(e, s, g.strays, g'.tries[i])
  }

  lemma OnwardTransitive(e: Setup, a: State, g: Ledger, b: State, h: Ledger, i: Ledger)
    requires Onward(e, a, g, h) && Onward(e, b, h, i) && g.strays == h.strays
    requires Grows(a.table, b.table) && KeepsBlobs(a.table, b.table)
    ensures Onward(e, a, g, i)
  {
    forall j | |g.tries| <= j < |i.tries|
      ensures TryFrom(e, a, g.strays, i.tries[j])
    {
      if j < |h.tries| {
        assert i.tries[j] == h.tries[j];
      } else {
        GrowsTransitive(a.table, b.table, i.tries[j].state.table);
      }
    }
  }

  lemma RetriedNothing(e: Setup, s: State, g: Ledger)
    requires Good(e, s, g)
    ensures Retried(e, s, g, s, g)
  {
  }

  lemma RetriedTransitive(e: Setup, a: State, g: Ledger, b: State, h: Ledger, c: State, i: Ledger)
    requires Retried(e, a, g, b, h) && Retried(e, b, h, c, i)
    ensures Retried(e, a, g, c, i)
  {
    GrowsTransitive(a.table, b.table, c.table);
    PromotesTransitive(a.table, b.table, c.table);
    OnwardTransitive(e, a, g, b, h, i);
  }

  lemma PromotesOne(t: Table, k: nat)
    requires Parked(t, k)
    ensures Promotes(t, t) && Grows(t, t) && Promotes(t, t[k := t[k].(state := InSync)])
  {
  }

  /** one parked row: with a key for it now it is checked by its stored block, and promoted where the row says */
  method RetryRow(e: Setup, s: State, ghost g: Ledger, k: nat)
    returns (ok: bool, promoted: bool, s': State, ghost g': Ledger)
    requires Good(e, s, g) && Parked(s.table, k)
    ensures Retried(e, s, g, s', g') && (s.contradicted ==> s'.contradicted)
    ensures g'.tries == g.tries + [Try(s, k)] && (g'.misplaced <==> g.misplaced || Astray(e, s, k))
    ensures if promoted then ok && Fits(e, s, s.keys, k) else ok ==> !Fits(e, s, s.keys, k)
    ensures s'.table == if promoted then s.table[k := s.table[k].(state := InSync)] else s.table
  {
    var row := s.table[k];
    ok, promoted, s' := true, false, s;
    g' := g.(misplaced := g.misplaced || Astray(e, s, k), tries := g.tries + [Try(s, k)]);
    PromotesOne(s.table, k);
    TriedKept(e, s, g, k);
    if Opens(e.crypto, s.keys, row.blob.record) {
      var (state, checked) := Checked(e, s, row.blob);
      s' := checked.(keys := if row.blob.record.userChange then s.keys + e.crypto.envelope(row.blob.record)
                             else s.keys);
      if state == InSync {
        if !g'.misplaced && !Taken(s.table, row.at) {
          NotAstrayLands(e, s, g, k);
        }
        FreeIff(s.table, k);
        ok, s' := PlaceRow(e, s', g', k);
        promoted := ok;
      }
    }
  }

  lemma NotAstrayLands(e: Setup, s: State, g: Ledger, k: nat)
    requires Good(e, s, g) && !g.misplaced && Parked(s.table, k) && !Taken(s.table, s.table[k].at)
    requires Fits(e, s, s.keys, k) && !Astray(e, s, k)
    ensures Lands(s.table, e.anchor, k)
  {
    PassesIff(e, s, g, s.table[k].blob);
    PlacedIff(e, s, g, k);
  }

  /** a try is booked before anything is done */
  lemma TriedKept(e: Setup, s: State, g: Ledger, k: nat)
    requires Good(e, s, g) && Parked(s.table, k)
    ensures var g' := g.(misplaced := g.misplaced || Astray(e, s, k), tries := g.tries + [Try(s, k)]);
            Good(e, s, g') && Onward(e, s, g, g') && (g'.misplaced ==> g.misplaced || g.strays != {})
  {
    var tries := g.tries + [Try(s, k)];
    assert tries[|g.tries|] == Try(s, k);
    if i :| 0 <= i < |g.tries| && Astray(e, g.tries[i].state, g.tries[i].row) {
      assert tries[i] == g.tries[i];
    }
    if Astray(e, s, k) && k !in g.strays {
      AgreeingStays(e, s, k);
    }
  }

  /** set_state of a retried row: it fails when its sequence is taken */
  method PlaceRow(e: Setup, s: State, ghost g: Ledger, k: nat) returns (ok: bool, s': State)
    requires Good(e, s, g) && Parked(s.table, k)
    requires !g.misplaced && !Taken(s.table, s.table[k].at) ==> Lands(s.table, e.anchor, k)
    ensures Good(e, s', g) && Grows(s.table, s'.table) && ok == !Taken(s.table, s.table[k].at)
    ensures s' == if ok then s.(table := s.table[k := s.table[k].(state := InSync)]) else s
  {
    FreeIff(s.table, k);
    ok, s' := false, s;
    if !Taken(s.table, s.table[k].at) {
      ok, s' := WriteRow(e, s, g, g, k, s.table[k].(state := InSync));
    }
  }

  /** retry the parked rows as long as one of them makes it: none is left that the keys at hand open and that fits */
  method RetryUndecryptedPending(e: Setup, s: State, ghost g: Ledger) returns (ok: bool, s': State, ghost g': Ledger)
    requires Good(e, s, g)
    ensures Retried(e, s, g, s', g')
    ensures ok ==> NoneFits(e, s', s.keys, s'.table.Keys)
  {
    ok, s', g' := true, s, g;
    RetriedNothing(e, s, g);
    var progress := true;
    while progress
      invariant Retried(e, s, g, s', g') && ok
      invariant !progress ==> NoneFits(e, s', s.keys, s'.table.Keys)
      decreases ParkedRows(s'.table), progress
    {
      ghost var before, books := s', g';
      ok, progress, s', g' := RetryOnce(e, s', g');
      RetriedTransitive(e, s, g, before, books, s', g');
      if !ok {
        return;
      }
      if !progress {
        FewerKeys(e, s', before.keys, s.keys);
      }
    }
  }

  lemma FewerKeys(e: Setup, s: State, keys: set<Key>, fewer: set<Key>)
    requires fewer <= keys && NoneFits(e, s, keys, s.table.Keys)
    ensures NoneFits(e, s, fewer, s.table.Keys)
  {
    forall k | k in s.table && Parked(s.table, k)
      ensures !Fits(e, s, fewer, k)
    {
      assert !Fits(e, s, keys, k);
    }
  }

  /** what is left of a pass, and what it has done: fewer parked rows, or nothing but knowing that none of them fits */
  ghost predicate Passed(e: Setup, s: State, s': State, left: set<nat>, progress: bool) {
    if progress then ParkedRows(s'.table) < ParkedRows(s.table)
    else s'.table == s.table && NoneFits(e, s', s.keys, ParkedRows(s.table) - left)
  }

  lemma PassedNext(e: Setup, s: State, before: State, s': State, left: set<nat>, progress: bool, k: nat, promoted: bool)
    requires Passed(e, s, before, left, progress) && s.keys <= before.keys && left <= ParkedRows(s.table)
    requires k in left && Parked(before.table, k) && (before.contradicted ==> s'.contradicted)
    requires s'.table == if promoted then before.table[k := before.table[k].(state := InSync)] else before.table
    requires !promoted ==> !Fits(e, before, before.keys, k)
    ensures Passed(e, s, s', left - {k}, progress || promoted)
  {
    PromotedFewer(before.table, k);
    if !promoted && !progress {
      NoneFitsMore(e, before, s', s.keys, ParkedRows(s.table) - left, k);
      DoneMore(ParkedRows(s.table), left, k);
    }
  }

  method RetryOnce(e: Setup, s: State, ghost g: Ledger) returns (ok: bool, progress: bool, s': State, ghost g': Ledger)
    requires Good(e, s, g)
    ensures Retried(e, s, g, s', g')
    ensures ok ==> if progress then ParkedRows(s'.table) < ParkedRows(s.table)
                   else s'.table == s.table && NoneFits(e, s', s.keys, s'.table.Keys)
  {
    ok, progress, s', g' := true, false, s, g;
    RetriedNothing(e, s, g);
    var left := set k | k in s.table && Parked(s.table, k);
    while left != {} && ok
      invariant Retried(e, s, g, s', g') && left <= ParkedRows(s.table)
      invariant ok ==> left <= ParkedRows(s'.table) && Passed(e, s, s', left, progress)
      decreases left, ok
    {
      var k :| k in left;
      ghost var before, books := s', g';
      var promoted;
      ok, promoted, s', g' := RetryRow(e, s', g', k);
      RetriedTransitive(e, s, g, before, books, s', g');
      if ok {
        PassedNext(e, s, before, s', left, progress, k, promoted);
        PromotedFewer(before.table, k);
      }
      left, progress := left - {k}, progress || promoted;
    }
    if ok && !progress {
      assert ParkedRows(s.table) - left == ParkedRows(s.table);
    }
  }

  // ---------------------------------------------------------------- own records

  /**
   * what the server's word makes of an own record: left alone once confirmed, else at the position
   * assigned, or invalid
   */
  ghost function CommittedRow(e: Setup, s: State, k: nat, b: Block): Row
    requires k in s.table
  {
    var row, state := s.table[k], Checked(e, s, b).0;
    if Confirmed(row.state) then row
    else if b.record == row.blob.record && state != Invalid then ReceivedRow(e, b, state).(blob := row.blob)
    else row.(state := Invalid)
  }

  /** the server's word on an own record: confirmed where the check says, or invalid */
  method UpdateRecordCommitState(e: Setup, s: State, ghost g: Ledger, k: nat, b: Block)
    returns (ok: bool, s': State, ghost g': Ledger)
    requires Good(e, s, g) && k in s.table && b.sequence >= 1 && e.crypto.hash(b) != []
    ensures Good(e, s', g') && Grows(s.table, s'.table)
    ensures g'.misplaced == g.misplaced && g'.tries == g.tries
    ensures g'.strays != g.strays ==>
              && g'.strays == g.strays + {k} && !Confirmed(s.table[k].state)
              && Checked(e, s, b).0 == PendingSync && s.table[k].blob != b
    ensures ok ==> s'.table == s.table[k := CommittedRow(e, s, k, b)]
    ensures Halts(s, s')
  {
    var row := s.table[k];
    ok, s', g' := true, s, g;
    if !Confirmed(row.state) {
      var (state, checked) := Checked(e, s, b);
      if b.record == row.blob.record && state != Invalid {
        if state == InSync {
          CheckedEnters(e, s, g, b);
        }
        var row' := ReceivedRow(e, b, state).(blob := row.blob);
        assert Block(row'.blob.record, row'.at, row'.parent) == b;
        ghost var after := if state == PendingSync && row.blob != b then g.(strays := g.strays + {k}) else g;
        ok, s' := WriteRow(e, checked, g, after, k, row');
        g' := if ok then after else g;
      } else {
        ok, s' := WriteRow(e, checked, g, g, k, row.(state := Invalid));
      }
    }
  }

  /** the replaced record takes its state; where it continues the chain it still does */
  lemma ReplacedContinues(e: Setup, s: State, g: Ledger, k: nat, row: Row)
    requires Good(e, s, g) && !Synced(s.table, k) && row.state != InSync
    requires !g.misplaced ==> Continues(s.table, e.anchor, row.at, row.hash, row.parent)
    ensures !g.misplaced ==> Continues(s.table[k := row], e.anchor, row.at, row.hash, row.parent)
  {
    if !g.misplaced {
      ContinuesGrows(s.table, s.table[k := row], e.anchor, row.at, row.hash, row.parent);
    }
  }

  /** the committed form of an own pending record replaces it, then takes the state the check says */
  method AdoptCommitted(e: Setup, s: State, ghost g: Ledger, k: nat, b: Block) returns (ok: bool, s': State)
    requires Good(e, s, g) && k in s.table && s.table[k].state == PendingCommit && b.sequence >= 1
    requires e.crypto.hash(b) != []
    ensures Good(e, s', g) && Grows(s.table, s'.table)
    ensures ok ==> s'.table == if Checked(e, s, b).0 == Invalid then s.table
                               else s.table[k := ReceivedRow(e, b, Checked(e, s, b).0)]
    ensures Halts(s, s')
  {
    var (state, checked) := Checked(e, s, b);
    ok, s' := true, checked;
    if state != Invalid {
      var row := ReceivedRow(e, b, state);
      var replaced := row.(state := PendingCommit);
      assert Block(row.blob.record, row.at, row.parent) == b;
      if state == InSync {
        CheckedEnters(e, s, g, b);
        ReplacedContinues(e, s, g, k, replaced);
      }
      ok, s' := WriteRow(e, checked, g, g, k, replaced);
      if ok {
        ghost var between := s'.table;
        ok, s' := WriteRow(e, s', g, g, k, row);
        GrowsTransitive(s.table, between, s'.table);
        Overwritten(s.table, k, replaced, row);
      }
    }
  }

  // ---------------------------------------------------------------- incoming blocks

  predicate LearnsKey(known: set<Key>, carried: set<Key>) {
    exists v :: v in carried && forall k :: k in known ==> k.sequence != v.sequence
  }

  /** the keys with those that an unreadable user change brings along */
  function KeysFor(e: Setup, keys: set<Key>, r: Record): set<Key> {
    if !Opens(e.crypto, keys, r) && r.userChange then keys + e.crypto.envelope(r) else keys
  }

  /** a new row: as the check says when it can be read, else parked; and what it unlocks */
  ghost predicate Stored(e: Setup, s: State, b: Block, t': Table) {
    var state := if Opens(e.crypto, KeysFor(e, s.keys, b.record), b.record) then Checked(e, s, b).0 else PendingSync;
    Promotes(s.table[s.next := ReceivedRow(e, b, state)], t')
  }

  /** a block nobody here knows yet: verified with a key for it, else parked until there is one */
  method StoreBlock(e: Setup, s: State, ghost g: Ledger, b: Block) returns (ok: bool, s': State, ghost g': Ledger)
    requires Good(e, s, g) && b.sequence >= 1 && e.crypto.hash(b) != []
    ensures Good(e, s', g') && Grows(s.table, s'.table) && g' == g.(next := s'.next)
    ensures ok ==> Stored(e, s, b, s'.table) && s'.keys == KeysFor(e, s.keys, b.record) && KeepsBlobs(s.table, s'.table)
    ensures Opens(e.crypto, s.keys, b.record) ==> Took(e, s, b, ok, s')
    ensures Halts(s, s')
  {
    var known := s.(keys := KeysFor(e, s.keys, b.record));
    if Opens(e.crypto, known.keys, b.record) {
      ok, s', g' := VerifyBlock(e, known, g, b);
    } else {
      var row := ReceivedRow(e, b, PendingSync);
      assert Block(row.blob.record, row.at, row.parent) == b;
      g' := g.(next := s.next + 1);
      ok, s' := WriteRow(e, known, g, g', s.next, row);
      g' := if ok then g' else g;
    }
  }

  /** new keys bring whatever they open and what fits in sync */
  method HandleBlock(e: Setup, s: State, ghost g: Ledger, b: Block) returns (ok: bool, s': State, ghost g': Ledger)
    requires Good(e, s, g) && b.sequence >= 1 && e.crypto.hash(b) != []
    ensures Good(e, s', g') && Grows(s.table, s'.table) && g'.strays == g.strays && Onward(e, s, g, g')
    ensures g'.misplaced ==> g.misplaced || g.strays != {}
    ensures ok ==> Stored(e, s, b, s'.table)
    ensures ok && LearnsKey(s.keys, KeysFor(e, s.keys, b.record)) ==>
              NoneFits(e, s', KeysFor(e, s.keys, b.record), s'.table.Keys)
    ensures Opens(e.crypto, s.keys, b.record) ==> Took(e, s, b, ok, s')
    ensures Halts(s, s')
    ensures ok && BringsKeys(e, s, b.record) ==> Unlocked(e, s', s.keys + e.crypto.envelope(b.record))
  {
    var learned := LearnsKey(s.keys, KeysFor(e, s.keys, b.record));
    ok, s', g' := StoreBlock(e, s, g, b);
    if ok && learned {
      ghost var stored, books := s', g';
      ok, s', g' := RetryUndecryptedPending(e, s', g');
      GrowsTransitive(s.table, stored.table, s'.table);
      StoredMore(e, s, b, stored.table, s'.table);
      OnwardTransitive(e, s, g, stored, books, g');
      if ok {
        NoneLeftLocked(e, s', g', KeysFor(e, s.keys, b.record));
      }
    }
  }

  /** an unreadable user change whose envelope has a key under a sequence without one */
  ghost predicate BringsKeys(e: Setup, s: State, r: Record) {
    && r.userChange && !Opens(e.crypto, s.keys, r)
    && exists v :: v in e.crypto.envelope(r) && forall k :: k in s.keys ==> k.sequence != v.sequence
  }

  /** no parked row that the keys open is the awaited anchor, below a held one, first, or next, as it is stored */
  ghost predicate Unlocked(e: Setup, s: State, keys: set<Key>) {
    s.contradicted || forall k :: Parked(s.table, k) && Opens(e.crypto, keys, s.table[k].blob.record) ==>
                                    !StoredPasses(e, s.table, s.table[k].blob)
  }

  lemma NoneLeftLocked(e: Setup, s: State, g: Ledger, keys: set<Key>)
    requires Good(e, s, g) && NoneFits(e, s, keys, s.table.Keys)
    ensures Unlocked(e, s, keys)
  {
    forall k | Parked(s.table, k) && Opens(e.crypto, keys, s.table[k].blob.record)
      ensures s.contradicted || !StoredPasses(e, s.table, s.table[k].blob)
    {
      PassesIff(e, s, g, s.table[k].blob);
    }
  }

  lemma StoredMore(e: Setup, s: State, b: Block, t: Table, t': Table)
    requires Stored(e, s, b, t) && Promotes(t, t')
    ensures Stored(e, s, b, t')
  {
    var state := if Opens(e.crypto, KeysFor(e, s.keys, b.record), b.record) then Checked(e, s, b).0 else PendingSync;
    PromotesTransitive(s.table[s.next := ReceivedRow(e, b, state)], t, t');
  }

  predicate HasTag(t: Table, k: nat, tag: Tag) {
    k in t && t[k].blob.record.tag == tag
  }

  /** an own record that waits for its commit under the operation id */
  predicate OwnPending(t: Table, k: nat, op: OctetVector) {
    k in t && t[k].state == PendingCommit && op != [] && t[k].blob.record.op == op
  }

  predicate KnowsTag(t: Table, tag: Tag) {
    exists k :: k in t && HasTag(t, k, tag)
  }

  predicate WaitsFor(t: Table, op: OctetVector) {
    exists k :: k in t && OwnPending(t, k, op)
  }

  /**
   * what a block from the server does to the table: nothing to a known one, its word to a pending one,
   * else a new row
   */
  ghost predicate Received(e: Setup, s: State, b: Block, wellFormed: bool, t': Table) {
    if b.sequence == 0 || e.crypto.hash(b) == [] || !wellFormed then t' == s.table
    else if KnowsTag(s.table, b.record.tag) then
      forall k :: HasTag(s.table, k, b.record.tag) ==>
        t' == if s.table[k].state == PendingCommit then s.table[k := CommittedRow(e, s, k, b)] else s.table
    else if WaitsFor(s.table, b.record.op) then
      forall k :: OwnPending(s.table, k, b.record.op) ==>
        t' == if Checked(e, s, b).0 == Invalid then s.table else s.table[k := ReceivedRow(e, b, Checked(e, s, b).0)]
    else Stored(e, s, b, t')
  }

  ghost predicate IsNew(e: Setup, s: State, b: Block, wellFormed: bool) {
    && b.sequence != 0 && e.crypto.hash(b) != [] && wellFormed
    && !KnowsTag(s.table, b.record.tag) && !WaitsFor(s.table, b.record.op)
  }

  /** a record that is here already, and not as an own one without an answer */
  ghost predicate Repeats(e: Setup, s: State, b: Block) {
    exists k :: HasTag(s.table, k, b.record.tag) && s.table[k].state != PendingCommit
  }

  /** a block from the server, answered or pushed */
  method HandleIncomingRecord(e: Setup, s: State, ghost g: Ledger, b: Block, wellFormed: bool)
    returns (ok: bool, s': State, ghost g': Ledger)
    requires Good(e, s, g)
    ensures Good(e, s', g') && Grows(s.table, s'.table) && Onward(e, s, g, g')
    ensures g'.misplaced ==> g.misplaced || g.strays != {}
    ensures g.strays <= g'.strays && (g'.strays != g.strays ==> Checked(e, s, b).0 == PendingSync)
    ensures ok ==> Received(e, s, b, wellFormed, s'.table)
    ensures !KnowsTag(s.table, b.record.tag) ==> g'.strays == g.strays
    ensures IsNew(e, s, b, wellFormed) && Opens(e.crypto, s.keys, b.record) ==> Took(e, s, b, ok, s')
    ensures Halts(s, s')
    ensures Repeats(e, s, b) ==> ok && s' == s && g' == g
  {
    ok, s', g' := true, s, g;
    if b.sequence != 0 && e.crypto.hash(b) != [] && wellFormed {
      if k :| k in s.table && HasTag(s.table, k, b.record.tag) {
        if s.table[k].state == PendingCommit {
          ok, s', g' := UpdateRecordCommitState(e, s, g, k, b);
        }
        assert forall j :: HasTag(s.table, j, b.record.tag) ==> j == k;
      } else {
        if k :| k in s.table && OwnPending(s.table, k, b.record.op) {
          ok, s' := AdoptCommitted(e, s, g, k, b);
          assert forall j :: OwnPending(s.table, j, b.record.op) ==> j == k;
        } else {
          ok, s', g' := HandleBlock(e, s, g, b);
        }
      }
    }
  }

  /** what the answer to a commit does to the table */
  ghost predicate Answered(e: Setup, s: State, b: Block, t': Table) {
    if b.sequence == 0 || e.crypto.hash(b) == [] || !KnowsTag(s.table, b.record.tag) then t' == s.table
    else forall k :: HasTag(s.table, k, b.record.tag) ==> t' == s.table[k := CommittedRow(e, s, k, b)]
  }

  /** the answer to a commit */
  method OnCommitted(e: Setup, s: State, ghost g: Ledger, b: Block) returns (ok: bool, s': State, ghost g': Ledger)
    requires Good(e, s, g)
    ensures Good(e, s', g') && Grows(s.table, s'.table)
    ensures g'.misplaced == g.misplaced && g'.tries == g.tries
    ensures g.strays <= g'.strays && (g'.strays != g.strays ==> Checked(e, s, b).0 == PendingSync)
    ensures ok ==> Answered(e, s, b, s'.table)
    ensures Halts(s, s')
  {
    ok, s', g' := true, s, g;
    if b.sequence != 0 && e.crypto.hash(b) != [] {
      if k :| k in s.table && HasTag(s.table, k, b.record.tag) {
        ok, s', g' := UpdateRecordCommitState(e, s, g, k, b);
        assert forall j :: HasTag(s.table, j, b.record.tag) ==> j == k;
      }
    }
  }

  // ---------------------------------------------------------------- where a retry goes wrong

  predicate SomeInSync(t: Table) {
    exists k :: k in t && Synced(t, k)
  }

  /** the stored blocks of the strays have no parent, as a local record's has not */
  ghost predicate LocalStrays(t: Table, strays: set<nat>) {
    forall k :: k in strays ==> k in t && t[k].blob.parent == []
  }

  /** without an anchor a local stray stays where it is parked once one record is in sync */
  lemma TryStays(e: Setup, s: State, strays: set<nat>, x: Try)
    requires TryFrom(e, s, strays, x) && !e.anchor.Set() && SomeInSync(s.table) && LocalStrays(s.table, strays)
    ensures !Astray(e, x.state, x.row)
  {
    var t := x.state.table;
    var k :| k in s.table && Synced(s.table, k);
    assert Synced(t, k) && !NothingInSync(t);
    if x.row in strays {
      assert t[x.row].blob.parent == [];
      assert forall j :: Synced(t, j) ==> HashColumn(e.crypto, t[j]);
    } else {
      AgreeingStays(e, x.state, x.row);
    }
  }

  lemma HoldsOnceInSync(e: Setup, s: State, g: Ledger, s': State, g': Ledger)
    requires Good(e, s, g) && Good(e, s', g') && Onward(e, s, g, g') && !g.misplaced
    requires !e.anchor.Set() && SomeInSync(s.table) && LocalStrays(s.table, g.strays)
    ensures !g'.misplaced
  {
    forall i | 0 <= i < |g'.tries|
      ensures !Astray(e, g'.tries[i].state, g'.tries[i].row)
    {
      if i < |g.tries| {
        assert g'.tries[i] == g.tries[i];
      } else {
        TryStays(e, s, g.strays, g'.tries[i]);
      }
    }
  }

  /**
   * It can go wrong: the client's first record predicts sequence 1 without a parent. Answered at
   * a later sequence while nothing is in sync it is parked there, and its stored block still
   * passes for the first record of the chain.
   */
  lemma ParkedFirstRecordMisplaced(e: Setup, r: Record, keys: set<Key>, s: nat, parent: Hash)
    requires !e.anchor.Set() && s >= 2 && Opens(e.crypto, keys, r)
    ensures var own := Row(Block(r, 1, []), 1, e.crypto.hash(Block(r, 1, [])), [], PendingCommit);
            var answer := Block(r, s, parent);
            var parked := ReceivedRow(e, answer, PendingSync).(blob := own.blob);
            && Checked(e, State(map[0 := own], 1, keys, false), answer).0 == PendingSync
            && Astray(e, State(map[0 := parked], 1, keys, false), 0)
            && !ChainGood(map[0 := parked.(state := InSync)], e.anchor)
  {
    var own := Row(Block(r, 1, []), 1, e.crypto.hash(Block(r, 1, [])), [], PendingCommit);
    var parked := ReceivedRow(e, Block(r, s, parent), PendingSync).(blob := own.blob);
    var t := map[0 := parked.(state := InSync)];
    assert Synced(t, 0);
    assert forall k :: Synced(t, k) ==> k == 0;
    assert !PrecededBy(t, s, parent);
  }

  // ---------------------------------------------------------------- the engine

  class Engine {
    const setup: Setup
    var table: Table
    var nextKey: nat
    var keys: set<Key>
    var contradicted: bool
    ghost var strays: set<nat>
    ghost var misplaced: bool
    ghost var tries: seq<Try>

    function Value(): State
      reads this
    {
      State(table, nextKey, keys, contradicted)
    }

    ghost function Books(): Ledger
      reads this
    {
      Ledger(nextKey, strays, misplaced, tries)
    }

    /** as long as no retry went astray the in sync records are one chain; and only a stray ever goes */
    ghost predicate Valid()
      reads this
    {
      Good(setup, Value(), Books()) && (misplaced ==> strays != {})
    }

    constructor (crypto: Crypto, anchor: BlockId)
      ensures Valid() && table == map[] && strays == {} && tries == [] && !misplaced
      ensures setup == Setup(crypto, anchor)
    {
      setup := Setup(crypto, anchor);
      table, nextKey, keys, contradicted := map[], 0, {}, false;
      strays, misplaced, tries := {}, false, [];
    }

    method Receive(b: Block, wellFormed: bool) returns (ok: bool)
      requires Valid()
      modifies this
      ensures Valid() && Grows(old(table), table)
      ensures Onward(setup, old(Value()), old(Books()), Books()) && (misplaced <==> WentAstray(setup, tries))
      ensures !misplaced ==> ChainGood(table, setup.anchor)
      ensures !setup.anchor.Set() && old(!misplaced && SomeInSync(table) && LocalStrays(table, strays)) ==> !misplaced
      ensures strays == {} ==> !misplaced
      ensures strays != old(strays) ==> Checked(setup, old(Value()), b).0 == PendingSync
      ensures ok ==> Received(setup, old(Value()), b, wellFormed, table)
      ensures IsNew(setup, old(Value()), b, wellFormed) && Opens(setup.crypto, old(keys), b.record) ==>
                Took(setup, old(Value()), b, ok, Value())
      ensures Halts(old(Value()), Value())
    {
      var s;
      ghost var g;
      ok, s, g := HandleIncomingRecord(setup, Value(), Books(), b, wellFormed);
      if !setup.anchor.Set() && !misplaced && SomeInSync(table) && LocalStrays(table, strays) {
        HoldsOnceInSync(setup, Value(), Books(), s, g);
      }
      Take(s, g);
    }

    method CommitAnswered(b: Block) returns (ok: bool)
      requires Valid()
      modifies this
      ensures Valid() && Grows(old(table), table)
      ensures misplaced == old(misplaced) && tries == old(tries) && (misplaced <==> WentAstray(setup, tries))
      ensures !misplaced ==> ChainGood(table, setup.anchor)
      ensures strays != old(strays) ==> Checked(setup, old(Value()), b).0 == PendingSync
      ensures ok ==> Answered(setup, old(Value()), b, table)
      ensures Halts(old(Value()), Value())
    {
      var s;
      ghost var g;
      ok, s, g := OnCommitted(setup, Value(), Books(), b);
      Take(s, g);
    }

    /** a local change waits for its commit under a predicted sequence, without a parent */
    method CreateLocal(r: Record, predicted: nat) returns (ok: bool)
      requires Valid()
      modifies this
      ensures Valid() && Grows(old(table), table) && strays == old(strays) && misplaced == old(misplaced)
      ensures tries == old(tries)
      ensures !misplaced ==> ChainGood(table, setup.anchor)
      ensures ok ==> table == old(table)[old(nextKey) := ReceivedRow(setup, Block(r, predicted, []), PendingCommit)]
    {
      var s;
      ghost var g := Books().(next := nextKey + 1);
      ok, s := WriteRow(setup, Value(), Books(), g, nextKey,
                        ReceivedRow(setup, Block(r, predicted, []), PendingCommit));
      Take(s, if ok then g else Books());
    }

    /** a pending record is rebuilt, or given up: the in sync records do not notice */
    method ReplacePending(k: nat, r: Record, predicted: nat, drop: bool) returns (ok: bool)
      requires Valid() && k in table && table[k].state == PendingCommit
      modifies this
      ensures Valid() && Grows(old(table), table) && strays == old(strays) && misplaced == old(misplaced)
      ensures tries == old(tries)
      ensures !misplaced ==> ChainGood(table, setup.anchor)
      ensures ok ==> table == old(table)[k := if drop then old(table)[k].(state := Invalid)
                                              else ReceivedRow(setup, Block(r, predicted, []), PendingCommit)]
    {
      var row := if drop then table[k].(state := Invalid)
                 else ReceivedRow(setup, Block(r, predicted, []), PendingCommit);
      var s;
      ok, s := WriteRow(setup, Value(), Books(), Books(), k, row);
      Take(s, Books());
    }

    method Take(s: State, ghost g: Ledger)
      requires Good(setup, s, g) && (g.misplaced ==> g.strays != {})
      modifies this
      ensures Valid() && Value() == s && Books() == g
    {
      table, nextKey, keys, contradicted := s.table, s.next, s.keys, s.contradicted;
      strays, misplaced, tries := g.strays, g.misplaced, g.tries;
    }
  }
}
