/**
 * What a strict mode client without an anchor makes of one honest chain
 * (spsync/engine/sync_engine.cpp): whatever the order in which the blocks come, and however
 * often, the table tells only which ones came. In sync are those with nothing missing before
 * them, the others wait, and once all have come the whole chain is in sync.
 */
module ChainDelivery {
  import opened Octets
  import opened ChainAcceptance
  import opened ChainEngine

  // ---------------------------------------------------------------- the chain and the table

  /** block i + 1 of the chain: it names the hash of the one before, and the known keys open its record */
  ghost predicate LinkedAt(e: Setup, keys: set<Key>, chain: seq<Block>, i: nat)
    requires i < |chain|
  {
    && chain[i].sequence == i + 1 && e.crypto.hash(chain[i]) != []
    && chain[i].parent == (if i == 0 then [] else e.crypto.hash(chain[i - 1]))
    && Opens(e.crypto, keys, chain[i].record)
  }

  ghost predicate Apart(e: Setup, a: Block, b: Block) {
    && a.record.tag != b.record.tag && e.crypto.hash(a) != e.crypto.hash(b)
    && (a.record.op != [] ==> a.record.op != b.record.op)
  }

  ghost predicate ApartAt(e: Setup, chain: seq<Block>, i: nat, j: nat)
    requires i < |chain| && j < |chain|
  {
    i != j ==> Apart(e, chain[i], chain[j])
  }

  /** the blocks 1..n of one chain, no two with the same tag, hash or operation */
  ghost predicate Honest(e: Setup, keys: set<Key>, chain: seq<Block>) {
    && (forall i: nat :: i < |chain| ==> LinkedAt(e, keys, chain, i))
    && (forall i: nat, j: nat :: i < |chain| && j < |chain| ==> ApartAt(e, chain, i, j))
  }

  /** the block came, and every one before it */
  ghost predicate UpTo(got: set<nat>, i: int) {
    forall j: nat :: j <= i ==> j in got
  }

  /** the row of a block that came, whatever its state */
  ghost predicate IsRow(e: Setup, chain: seq<Block>, got: set<nat>, row: Row) {
    && 1 <= row.at <= |chain| && row.at - 1 in got
    && row == ReceivedRow(e, chain[row.at - 1], row.state) && (row.state == InSync || row.state == PendingSync)
  }

  ghost predicate RowAt(e: Setup, chain: seq<Block>, got: set<nat>, t: Table, k: nat) {
    k in t ==> IsRow(e, chain, got, t[k])
  }

  ghost predicate HasRow(t: Table, i: nat) {
    exists k :: k in t && t[k].at == i + 1
  }

  ghost predicate Rows(e: Setup, chain: seq<Block>, got: set<nat>, t: Table) {
    && (forall i :: i in got ==> i < |chain|)
    && (forall i {:trigger HasRow(t, i)} :: i in got ==> HasRow(t, i))
    && (forall k :: RowAt(e, chain, got, t, k))
  }

  ghost predicate StandsAt(got: set<nat>, t: Table, k: nat) {
    k in t ==> (t[k].state == InSync <==> UpTo(got, t[k].at - 1))
  }

  /** the table after the given blocks came: in sync exactly as far as none is missing, the others parked */
  ghost predicate Delivered(e: Setup, chain: seq<Block>, got: set<nat>, t: Table) {
    Rows(e, chain, got, t) && forall k :: StandsAt(got, t, k)
  }

  // ---------------------------------------------------------------- before a block comes

  lemma FirstMissing(chain: seq<Block>, got: set<nat>) returns (m: nat)
    requires forall i :: i in got ==> i < |chain|
    ensures m !in got && forall j: nat :: j < m ==> j in got
  {
    m := 0;
    while m in got
      invariant forall j: nat :: j < m ==> j in got
      decreases |chain| - m
    {
      m := m + 1;
    }
  }

  /** the row of a block that came */
  lemma RowOf(e: Setup, chain: seq<Block>, got: set<nat>, t: Table, i: nat) returns (k: nat)
    requires Rows(e, chain, got, t) && i in got
    ensures k in t && t[k].at == i + 1 && IsRow(e, chain, got, t[k])
  {
    assert HasRow(t, i);
    k :| k in t && t[k].at == i + 1;
    assert RowAt(e, chain, got, t, k);
  }

  /** what is in sync ends before the first block that is missing */
  lemma NewestIsBefore(e: Setup, chain: seq<Block>, got: set<nat>, t: Table, m: nat)
    requires Delivered(e, chain, got, t) && m !in got && forall j: nat :: j < m ==> j in got
    ensures IsNewest(t, m)
  {
    forall k | Synced(t, k)
      ensures t[k].at <= m
    {
      assert StandsAt(got, t, k);
    }
    if m > 0 {
      var k := RowOf(e, chain, got, t, m - 1);
      assert StandsAt(got, t, k);
    }
  }

  lemma OneRow(e: Setup, keys: set<Key>, chain: seq<Block>, got: set<nat>, t: Table, j: nat, k: nat)
    requires Rows(e, chain, got, t) && j in t && k in t && Unique(t) && t[j].at == t[k].at
    ensures j == k
  {
    assert RowAt(e, chain, got, t, j) && RowAt(e, chain, got, t, k);
  }

  /** the parent of a block is held exactly when the block before it is in sync */
  lemma ParentHeldIff(e: Setup, keys: set<Key>, chain: seq<Block>, got: set<nat>, t: Table, i: nat)
    requires Honest(e, keys, chain) && Rows(e, chain, got, t) && 0 < i < |chain|
    ensures HasHash(t, chain[i].parent) <==> HasSequence(t, i)
    ensures HasSequence(t, i) ==> PrecededBy(t, i + 1, chain[i].parent)
  {
    assert LinkedAt(e, keys, chain, i);
    if k :| k in t && Synced(t, k) && t[k].hash == chain[i].parent {
      assert RowAt(e, chain, got, t, k);
      assert ApartAt(e, chain, t[k].at - 1, i - 1);
    }
    if k :| k in t && Synced(t, k) && t[k].at == i {
      assert RowAt(e, chain, got, t, k);
    }
  }

  /** a block goes in sync when none before it is missing, and waits otherwise */
  lemma CheckedAs(e: Setup, keys: set<Key>, chain: seq<Block>, got: set<nat>, s: State, g: Ledger, i: nat, m: nat)
    requires Honest(e, keys, chain) && Delivered(e, chain, got, s.table) && Good(e, s, g)
    requires !e.anchor.Set() && !s.contradicted && i < |chain| && i !in got
    requires m !in got && forall j: nat :: j < m ==> j in got
    ensures Checked(e, s, chain[i]).0 == if i == m then InSync else PendingSync
  {
    var t, b := s.table, chain[i];
    NewestIsBefore(e, chain, got, t, m);
    assert m <= i && LinkedAt(e, keys, chain, i);
    if i > 0 {
      ParentHeldIff(e, keys, chain, got, t, i);
    }
    if i == m {
      NewestLess(t, m, b.sequence);
      assert i == 0 ==> NothingInSync(t) by {
        NewestOfNone(e, s, g);
      }
      PassesIff(e, s, g, b);
    } else {
      assert !HasSequence(t, i);
      ParkedIff(e, s, g, b, m);
    }
  }

  lemma NewestOfNone(e: Setup, s: State, g: Ledger)
    requires Good(e, s, g)
    ensures IsNewest(s.table, 0) ==> NothingInSync(s.table)
  {
    forall k | Synced(s.table, k)
      ensures s.table[k].at > 0
    {
      assert HashColumn(e.crypto, s.table[k]);
    }
  }

  lemma FreshIsUnique(e: Setup, t: Table, next: nat, row: Row)
    requires Unique(t) && next !in t && row.hash == e.crypto.hash(row.blob)
    requires forall k :: k in t ==> t[k].hash == e.crypto.hash(t[k].blob) && t[k].at != row.at
    requires forall k :: k in t ==> Apart(e, t[k].blob, row.blob) && Apart(e, row.blob, t[k].blob)
    ensures Unique(t[next := row])
  {
  }

  lemma FreshIsApart(e: Setup, keys: set<Key>, chain: seq<Block>, got: set<nat>, t: Table, i: nat, k: nat)
    requires Honest(e, keys, chain) && Rows(e, chain, got, t) && i < |chain| && i !in got && k in t
    ensures t[k].hash == e.crypto.hash(t[k].blob) && t[k].at != chain[i].sequence
    ensures Apart(e, t[k].blob, chain[i]) && Apart(e, chain[i], t[k].blob)
    ensures RowAt(e, chain, got + {i}, t, k)
  {
    assert RowAt(e, chain, got, t, k) && LinkedAt(e, keys, chain, i);
    assert ApartAt(e, chain, t[k].at - 1, i) && ApartAt(e, chain, i, t[k].at - 1);
  }

  /** a new block of the chain gets along with the rows that are there */
  lemma WrittenUnique(e: Setup, keys: set<Key>, chain: seq<Block>, got: set<nat>, s: State, g: Ledger, i: nat,
                      state: RowState)
    requires Honest(e, keys, chain) && Rows(e, chain, got, s.table) && Good(e, s, g) && i < |chain| && i !in got
    ensures Unique(s.table[s.next := ReceivedRow(e, chain[i], state)])
  {
    var t := s.table;
    forall k | k in t
      ensures t[k].hash == e.crypto.hash(t[k].blob) && t[k].at != chain[i].sequence
      ensures Apart(e, t[k].blob, chain[i]) && Apart(e, chain[i], t[k].blob)
    {
      FreshIsApart(e, keys, chain, got, t, i, k);
    }
    FreshIsUnique(e, t, s.next, ReceivedRow(e, chain[i], state));
  }

  lemma WrittenRows(e: Setup, keys: set<Key>, chain: seq<Block>, got: set<nat>, t: Table, next: nat, i: nat,
                    state: RowState)
    requires Honest(e, keys, chain) && Rows(e, chain, got, t) && next !in t
    requires i < |chain| && i !in got && (state == InSync || state == PendingSync)
    ensures Rows(e, chain, got + {i}, t[next := ReceivedRow(e, chain[i], state)])
  {
    var written, got' := t[next := ReceivedRow(e, chain[i], state)], got + {i};
    assert LinkedAt(e, keys, chain, i);
    forall k
      ensures RowAt(e, chain, got', written, k)
    {
      if k in t && k != next {
        FreshIsApart(e, keys, chain, got, t, i, k);
      }
    }
    forall j | j in got'
      ensures HasRow(written, j)
    {
      if j == i {
        assert written[next].at == j + 1;
      } else {
        var k := RowOf(e, chain, got, t, j);
        assert k in written && written[k] == t[k];
      }
    }
  }

  // ---------------------------------------------------------------- after it came

  lemma PromotedRows(e: Setup, chain: seq<Block>, got: set<nat>, t: Table, t': Table)
    requires Rows(e, chain, got, t) && Promotes(t, t')
    ensures Rows(e, chain, got, t')
  {
    forall k
      ensures RowAt(e, chain, got, t', k)
    {
      assert RowAt(e, chain, got, t, k);
      assert k in t' ==> k in t;
    }
    forall i | i in got
      ensures HasRow(t', i)
    {
      var k := RowOf(e, chain, got, t, i);
      assert k in t' && t'[k].at == t[k].at;
    }
  }

  /** no two rows are at one sequence, so nothing stands in the way of what follows */
  lemma NoCollision(e: Setup, keys: set<Key>, chain: seq<Block>, got: set<nat>, t: Table)
    requires Rows(e, chain, got, t) && Unique(t)
    ensures !Collides(t)
  {
    forall j, k | Parked(t, k) && j in t && Confirmed(t[j].state)
      ensures t[j].at != t[k].at
    {
      if t[j].at == t[k].at {
        OneRow(e, keys, chain, got, t, j, k);
      }
    }
  }

  lemma CameBefore(e: Setup, chain: seq<Block>, got: set<nat>, t: Table, i: nat)
    requires Rows(e, chain, got, t) && Synced(t, i)
    ensures t[i].at >= 1 && t[i].at - 1 in got
  {
    assert RowAt(e, chain, got, t, i);
  }

  lemma SomeBelow(t: Table, anchor: BlockId, k: nat, s: nat) returns (j: nat)
    requires ChainGood(t, anchor) && !anchor.Set() && Synced(t, k) && 1 <= s <= t[k].at
    ensures Synced(t, j) && t[j].at == s
  {
    NoGapBelow(t, anchor, k, s);
    j :| Synced(t, j) && t[j].at == s;
  }

  /** what is in sync has nothing missing before it */
  lemma SyncedIsUpTo(e: Setup, chain: seq<Block>, got: set<nat>, t: Table, k: nat)
    requires Rows(e, chain, got, t) && ChainGood(t, e.anchor) && !e.anchor.Set() && Synced(t, k)
    ensures UpTo(got, t[k].at - 1)
  {
    forall j: nat | j <= t[k].at - 1
      ensures j in got
    {
      var i := SomeBelow(t, e.anchor, k, j + 1);
      CameBefore(e, chain, got, t, i);
    }
  }

  /** a parked row right behind an in sync one links to it */
  lemma NextLinks(e: Setup, keys: set<Key>, chain: seq<Block>, got: set<nat>, t: Table, last: nat, j: nat)
    requires Honest(e, keys, chain) && Rows(e, chain, got, t) && last in t && j in t && t[j].at == t[last].at + 1
    ensures t[j].parent == t[last].hash
  {
    assert RowAt(e, chain, got, t, last) && RowAt(e, chain, got, t, j);
    assert LinkedAt(e, keys, chain, t[last].at);
  }

  /** the walk ends before the first block that is missing */
  lemma EndIsMissing(e: Setup, keys: set<Key>, chain: seq<Block>, got: set<nat>, t: Table, last: nat)
    requires Honest(e, keys, chain) && Rows(e, chain, got, t) && StopsAt(t, last)
    requires forall k :: Synced(t, k) ==> t[k].at <= t[last].at
    ensures t[last].at !in got
  {
    forall j | Parked(t, j)
      ensures t[j].at != t[last].at + 1 || t[j].parent == t[last].hash
    {
      if t[j].at == t[last].at + 1 {
        NextLinks(e, keys, chain, got, t, last, j);
      }
    }
    if t[last].at in got {
      var k := RowOf(e, chain, got, t, t[last].at);
    }
  }

  /** with nothing missing before it a row is in sync */
  lemma UpToIsSynced(e: Setup, keys: set<Key>, chain: seq<Block>, got: set<nat>, t: Table, last: nat, k: nat)
    requires Rows(e, chain, got, t) && Unique(t) && ChainGood(t, e.anchor) && !e.anchor.Set()
    requires Synced(t, last) && t[last].at !in got && k in t && UpTo(got, t[k].at - 1)
    ensures Synced(t, k)
  {
    assert RowAt(e, chain, got, t, k);
    assert t[k].at <= t[last].at;
    var j := SomeBelow(t, e.anchor, last, t[k].at);
    OneRow(e, keys, chain, got, t, j, k);
  }

  /** everything in sync is at most where the walk ended */
  lemma EndIsNewest(s: State, row: Row, t': Table, last: nat)
    requires s.next !in s.table && row.state == InSync && LastLess(s.table, row.at)
    requires var written := s.table[s.next := row];
             Promotes(written, t') && EndsAt(written, t', s.next, last)
    ensures forall k :: Synced(t', k) ==> t'[k].at <= t'[last].at
  {
    var written := s.table[s.next := row];
    forall k | Synced(t', k)
      ensures t'[k].at <= t'[last].at
    {
      assert k in written;
      if !Parked(written, k) && k != s.next {
        assert Synced(s.table, k);
      }
    }
  }

  /** a block behind a missing one puts no other block in sync */
  lemma StillSynced(e: Setup, keys: set<Key>, chain: seq<Block>, got: set<nat>, t: Table, t': Table, i: nat, m: nat,
                    k: nat)
    requires Delivered(e, chain, got, t) && Rows(e, chain, got + {i}, t') && Unique(t')
    requires Grows(t, t') && m !in got && i != m && k in t' && UpTo(got + {i}, t'[k].at - 1)
    requires i !in got && forall j: nat :: j < m ==> j in got
    ensures Synced(t', k)
  {
    var at := t'[k].at;
    assert RowAt(e, chain, got + {i}, t', k);
    assert at - 1 < m && UpTo(got, at - 1);
    var j := RowOf(e, chain, got, t, at - 1);
    assert StandsAt(got, t, j) && Synced(t, j);
    OneRow(e, keys, chain, got + {i}, t', j, k);
  }

  /** what the new block needs of the table, and what it makes of it */
  lemma TookRows(e: Setup, keys: set<Key>, chain: seq<Block>, got: set<nat>, s: State, g: Ledger, i: nat, m: nat,
                 ok: bool, s': State, g': Ledger)
    requires Honest(e, keys, chain) && Delivered(e, chain, got, s.table) && !e.anchor.Set() && !s.contradicted
    requires Good(e, s, g) && Good(e, s', g') && i < |chain| && i !in got && Took(e, s, chain[i], ok, s')
    requires m !in got && forall j: nat :: j < m ==> j in got
    ensures ok && Rows(e, chain, got + {i}, s'.table) && !s'.contradicted
    ensures i == m ==> exists last :: Synced(s'.table, last) && s'.table[last].at !in got + {i}
  {
    CheckedAs(e, keys, chain, got, s, g, i, m);
    var row := ReceivedRow(e, chain[i], Checked(e, s, chain[i]).0);
    var written := s.table[s.next := row];
    WrittenUnique(e, keys, chain, got, s, g, i, row.state);
    WrittenRows(e, keys, chain, got, s.table, s.next, i, row.state);
    PromotedRows(e, chain, got + {i}, written, s'.table);
    NoCollision(e, keys, chain, got + {i}, s'.table);
    if i == m {
      var last :| EndsAt(written, s'.table, s.next, last);
      assert LinkedAt(e, keys, chain, i);
      NewestIsBefore(e, chain, got, s.table, m);
      NewestLess(s.table, m, row.at);
      EndIsNewest(s, row, s'.table, last);
      EndIsMissing(e, keys, chain, got + {i}, s'.table, last);
    }
  }

  /** one more block of the chain: the table is again told by the blocks that came */
  lemma DeliveredNext(e: Setup, keys: set<Key>, chain: seq<Block>, got: set<nat>, s: State, g: Ledger, i: nat, ok: bool,
                      s': State, g': Ledger)
    requires Honest(e, keys, chain) && Delivered(e, chain, got, s.table) && !e.anchor.Set() && !s.contradicted
    requires Good(e, s, g) && Good(e, s', g') && !g'.misplaced && Grows(s.table, s'.table)
    requires i < |chain| && i !in got && Took(e, s, chain[i], ok, s')
    ensures ok && Delivered(e, chain, got + {i}, s'.table) && !s'.contradicted
  {
    var t', got' := s'.table, got + {i};
    var m := FirstMissing(chain, got);
    TookRows(e, keys, chain, got, s, g, i, m, ok, s', g');
    forall k
      ensures StandsAt(got', t', k)
    {
      if Synced(t', k) {
        SyncedIsUpTo(e, chain, got', t', k);
      } else if k in t' && UpTo(got', t'[k].at - 1) {
        if i == m {
          var last :| Synced(t', last) && t'[last].at !in got';
          UpToIsSynced(e, keys, chain, got', t', last, k);
        } else {
          StillSynced(e, keys, chain, got, s.table, t', i, m, k);
        }
      }
    }
  }

  // ---------------------------------------------------------------- the delivery

  function Came(order: seq<nat>, n: nat): set<nat>
    requires n <= |order|
  {
    set i | 0 <= i < n :: order[i]
  }

  /** the deliveries so far, and nothing else happened */
  ghost predicate Receiving(e: Setup, keys: set<Key>, chain: seq<Block>, got: set<nat>, s: State, g: Ledger) {
    && Good(e, s, g) && g.strays == {} && !g.misplaced && s.keys == keys && !s.contradicted
    && Delivered(e, chain, got, s.table)
  }

  /** the client knows the tags of the blocks that came, and waits for none of its own */
  lemma RepeatsOrNew(e: Setup, keys: set<Key>, chain: seq<Block>, got: set<nat>, s: State, i: nat)
    requires Honest(e, keys, chain) && Rows(e, chain, got, s.table) && i < |chain|
    ensures if i in got then Repeats(e, s, chain[i])
            else IsNew(e, s, chain[i], true) && Opens(e.crypto, keys, chain[i].record)
  {
    assert LinkedAt(e, keys, chain, i);
    if i in got {
      var k := RowOf(e, chain, got, s.table, i);
      assert HasTag(s.table, k, chain[i].record.tag);
    } else {
      forall k | k in s.table
        ensures !HasTag(s.table, k, chain[i].record.tag) && !OwnPending(s.table, k, chain[i].record.op)
      {
        FreshIsApart(e, keys, chain, got, s.table, i, k);
        assert RowAt(e, chain, got, s.table, k);
      }
    }
  }

  /** a block that has come before changes nothing, a new one takes its place */
  method ReceiveOne(e: Setup, ghost keys: set<Key>, chain: seq<Block>, ghost got: set<nat>, s: State, ghost g: Ledger,
                    i: nat)
    returns (s': State, ghost g': Ledger)
    requires Honest(e, keys, chain) && !e.anchor.Set() && i < |chain| && Receiving(e, keys, chain, got, s, g)
    ensures Receiving(e, keys, chain, got + {i}, s', g')
  {
    RepeatsOrNew(e, keys, chain, got, s, i);
    var ok;
    ok, s', g' := HandleIncomingRecord(e, s, g, chain[i], true);
    if i in got {
      assert got + {i} == got;
    } else {
      DeliveredNext(e, keys, chain, got, s, g, i, ok, s', g');
    }
  }

  lemma NothingCame(e: Setup, keys: set<Key>, chain: seq<Block>, order: seq<nat>)
    ensures Receiving(e, keys, chain, Came(order, 0), State(map[], 0, keys, false), Ledger(0, {}, false, []))
  {
    assert Came(order, 0) == {};
  }

  lemma CameNext(order: seq<nat>, n: nat)
    requires n < |order|
    ensures Came(order, n + 1) == Came(order, n) + {order[n]}
  {
  }

  /**
   * The blocks of an honest chain, in any order and any number of times: in sync are exactly those with nothing
   * missing before them, the others are parked. Once every block has come exactly 1..n are in sync, nothing waits.
   */
  method Deliver(e: Setup, keys: set<Key>, chain: seq<Block>, order: seq<nat>) returns (s: State, ghost g: Ledger)
    requires Honest(e, keys, chain) && !e.anchor.Set() && forall i :: 0 <= i < |order| ==> order[i] < |chain|
    ensures Receiving(e, keys, chain, Came(order, |order|), s, g)
    ensures AllCame(chain, order) ==> Whole(e, chain, s.table)
  {
    s, g := State(map[], 0, keys, false), Ledger(0, {}, false, []);
    NothingCame(e, keys, chain, order);
    for n := 0 to |order|
      invariant Receiving(e, keys, chain, Came(order, n), s, g)
    {
      CameNext(order, n);
      s, g := ReceiveOne(e, keys, chain, Came(order, n), s, g, order[n]);
    }
    WholeOnceAllCame(e, chain, order, s.table);
  }

  /** exactly the chain is in sync, each block as it came, and nothing else is in the table */
  ghost predicate Whole(e: Setup, chain: seq<Block>, t: Table) {
    && (forall q: nat :: HasSequence(t, q) <==> 1 <= q <= |chain|)
    && (forall k :: k in t ==> 1 <= t[k].at <= |chain| && t[k] == ReceivedRow(e, chain[t[k].at - 1], InSync))
  }

  ghost predicate AllCame(chain: seq<Block>, order: seq<nat>) {
    forall i: nat :: i < |chain| ==> i in order
  }

  lemma WholeOnceAllCame(e: Setup, chain: seq<Block>, order: seq<nat>, t: Table)
    requires Delivered(e, chain, Came(order, |order|), t)
    ensures AllCame(chain, order) ==> Whole(e, chain, t)
  {
    if AllCame(chain, order) {
      forall i: nat | i < |chain|
        ensures i in Came(order, |order|)
      {
        assert i in order;
        var n :| 0 <= n < |order| && order[n] == i;
      }
      NothingMissing(e, chain, Came(order, |order|), t);
    }
  }

  lemma NothingMissing(e: Setup, chain: seq<Block>, got: set<nat>, t: Table)
    requires Delivered(e, chain, got, t) && forall i: nat :: i < |chain| ==> i in got
    ensures Whole(e, chain, t)
  {
    forall k | k in t
      ensures 1 <= t[k].at <= |chain| && t[k] == ReceivedRow(e, chain[t[k].at - 1], InSync)
    {
      assert RowAt(e, chain, got, t, k) && StandsAt(got, t, k);
    }
    forall q: nat
      ensures HasSequence(t, q) <==> 1 <= q <= |chain|
    {
      if 1 <= q <= |chain| {
        var k := RowOf(e, chain, got, t, q - 1);
        assert Synced(t, k);
      }
    }
  }

  function Ones(n: nat): OctetVector {
    seq(n, _ => 1)
  }

  /** there are such chains, of any length */
  lemma HonestChain(n: nat) returns (e: Setup, keys: set<Key>, chain: seq<Block>)
    ensures |chain| == n && !e.anchor.Set() && Honest(e, keys, chain)
  {
    e := Setup(Crypto((b: Block) => b.record.tag, (k, r) => true, r => {}), BlockId(0, []));
    keys := {Key(1, 1)};
    chain := seq(n, i requires 0 <= i < n => Block(Record(Ones(i + 1), [], false, []), i + 1, Ones(i)));
    forall i: nat | i < |chain|
      ensures LinkedAt(e, keys, chain, i)
    {
      assert Key(1, 1) in keys && e.crypto.authenticates(Key(1, 1), chain[i].record);
      assert i > 0 ==> e.crypto.hash(chain[i - 1]) == Ones(i);
      assert Ones(0) == [];
    }
    forall i: nat, j: nat | i < |chain| && j < |chain|
      ensures ApartAt(e, chain, i, j)
    {
      assert |Ones(i + 1)| == i + 1 && |Ones(j + 1)| == j + 1;
    }
  }
}
