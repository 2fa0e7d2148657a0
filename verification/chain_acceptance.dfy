/**
 * How a strict mode client takes in blocks (spsync/engine/sync_engine.cpp): accept, park,
 * promote, adopt, retry. The in sync records stay one linked chain, whatever the server sends
 * and in whatever order.
 */
module ChainAcceptance {
  import opened Octets

  type Tag = OctetVector

  type Hash = OctetVector

  /** a group key under its key sequence; colliding rotations leave several keys at one sequence */
  datatype Key = Key(sequence: nat, material: nat)

  datatype Record = Record(tag: Tag, op: OctetVector, userChange: bool, body: OctetVector)

  /** a record with the sequence and parent hash the server assigned, or a client predicts */
  datatype Block = Block(record: Record, sequence: nat, parent: Hash)

  datatype BlockId = BlockId(sequence: nat, hash: Hash) {
    predicate Set() {
      sequence != 0 && hash != []
    }
  }

  datatype RowState = Invalid | PendingCommit | PendingSync | InSync | Acked

  /** a row of the record table: the stored block and the columns, which can say another position */
  datatype Row = Row(blob: Block, at: nat, hash: Hash, parent: Hash, state: RowState)

  type Table = map<nat, Row>

  /** block hashing, which key authenticates which record, and the keys a user change carries */
  datatype Crypto = Crypto(hash: Block -> Hash, authenticates: (Key, Record) -> bool, envelope: Record -> set<Key>)

  /** one of the keys authenticates the record */
  predicate Opens(c: Crypto, keys: set<Key>, r: Record) {
    exists k :: k in keys && c.authenticates(k, r)
  }

  // ---------------------------------------------------------------- the table

  predicate Confirmed(s: RowState) {
    s == InSync || s == Acked
  }

  /** the UNIQUE constraints of the record table */
  predicate Unique(t: Table) {
    forall i, j :: i in t && j in t && i != j ==>
                     && t[i].blob.record.tag != t[j].blob.record.tag
                     && t[i].hash != t[j].hash
                     && (t[i].blob.record.op != [] ==> t[i].blob.record.op != t[j].blob.record.op)
                     && !(Confirmed(t[i].state) && Confirmed(t[j].state) && t[i].at == t[j].at)
  }

  predicate Synced(t: Table, k: nat) {
    k in t && t[k].state == InSync
  }

  predicate Parked(t: Table, k: nat) {
    k in t && t[k].state == PendingSync
  }

  predicate HasHash(t: Table, h: Hash) {
    exists k :: k in t && Synced(t, k) && t[k].hash == h
  }

  predicate HasSequence(t: Table, s: nat) {
    exists k :: k in t && Synced(t, k) && t[k].at == s
  }

  /** an in sync record with the hash sits right before the sequence */
  predicate PrecededBy(t: Table, s: nat, h: Hash) {
    exists k :: k in t && Synced(t, k) && t[k].at + 1 == s && t[k].hash == h
  }

  predicate BelowHash(t: Table, s: nat, h: Hash) {
    exists k :: k in t && Synced(t, k) && t[k].hash == h && s < t[k].at
  }

  /** the newest in sync sequence, 0 without one, is less than s */
  predicate LastLess(t: Table, s: int) {
    0 < s && forall k :: k in t && Synced(t, k) ==> t[k].at < s
  }

  // ---------------------------------------------------------------- the checks

  function CheckStrict(t: Table, anchor: BlockId, b: Block): RowState {
    if anchor.Set() && !HasSequence(t, b.sequence) && BelowHash(t, b.sequence, anchor.hash) then InSync
    else if LastLess(t, b.sequence) then
      if b.sequence == 1 && b.parent == [] then InSync
      else if HasHash(t, b.parent) then (if PrecededBy(t, b.sequence, b.parent) then InSync else Invalid)
      else if LastLess(t, b.sequence - 1) then PendingSync
      else Invalid
    else Invalid
  }

  predicate AwaitsAnchor(t: Table, anchor: BlockId) {
    anchor.Set() && !HasHash(t, anchor.hash)
  }

  predicate Contradicts(c: Crypto, anchor: BlockId, b: Block) {
    anchor.Set() && b.sequence == anchor.sequence && c.hash(b) != anchor.hash
  }

  function CheckBlock(c: Crypto, t: Table, anchor: BlockId, contradicted: bool, b: Block): RowState {
    if contradicted then Invalid
    else if AwaitsAnchor(t, anchor) then
      if c.hash(b) == anchor.hash then InSync
      else if Contradicts(c, anchor, b) then Invalid
      else PendingSync
    else CheckStrict(t, anchor, b)
  }

  // ---------------------------------------------------------------- the chain

  /** a record at this position continues the in sync chain: its start, a successor, or below the anchor */
  ghost predicate Continues(t: Table, anchor: BlockId, s: nat, h: Hash, parent: Hash) {
    if anchor.Set() then
      h == anchor.hash || BelowHash(t, s, anchor.hash) || (HasHash(t, anchor.hash) && PrecededBy(t, s, parent))
    else
      (s == 1 && parent == []) || PrecededBy(t, s, parent)
  }

  ghost predicate ChainGood(t: Table, anchor: BlockId) {
    forall k :: Synced(t, k) ==> t[k].at >= 1 && Continues(t, anchor, t[k].at, t[k].hash, t[k].parent)
  }

  ghost predicate Grows(t: Table, t': Table) {
    forall k :: Synced(t, k) ==> k in t' && t'[k] == t[k]
  }

  /** what the check lets in continues the chain */
  lemma CheckedContinues(c: Crypto, t: Table, anchor: BlockId, contradicted: bool, b: Block)
    requires Unique(t) && (forall k :: Synced(t, k) ==> t[k].at >= 1)
    requires CheckBlock(c, t, anchor, contradicted, b) == InSync
    ensures Continues(t, anchor, b.sequence, c.hash(b), b.parent)
  {
  }

  lemma ContinuesGrows(t: Table, t': Table, anchor: BlockId, s: nat, h: Hash, parent: Hash)
    requires Grows(t, t') && Continues(t, anchor, s, h, parent)
    ensures Continues(t', anchor, s, h, parent)
  {
    if BelowHash(t, s, anchor.hash) {
      var k :| k in t && Synced(t, k) && t[k].hash == anchor.hash && s < t[k].at;
      assert Synced(t', k);
    }
    if HasHash(t, anchor.hash) {
      var k :| k in t && Synced(t, k) && t[k].hash == anchor.hash;
      assert Synced(t', k);
    }
    if PrecededBy(t, s, parent) {
      var k :| k in t && Synced(t, k) && t[k].at + 1 == s && t[k].hash == parent;
      assert Synced(t', k);
    }
  }

  /** a record that continues the chain can go in sync: the chain goes on */
  lemma EntersGood(t: Table, t': Table, anchor: BlockId, k: nat)
    requires ChainGood(t, anchor) && Grows(t, t') && Synced(t', k)
    requires forall j :: Synced(t', j) && j != k ==> Synced(t, j) && t'[j] == t[j]
    requires t'[k].at >= 1 && Continues(t, anchor, t'[k].at, t'[k].hash, t'[k].parent)
    ensures ChainGood(t', anchor)
  {
    forall j | Synced(t', j)
      ensures Continues(t', anchor, t'[j].at, t'[j].hash, t'[j].parent)
    {
      ContinuesGrows(t, t', anchor, t'[j].at, t'[j].hash, t'[j].parent);
    }
  }

  /** and only such a record: the chain stays good exactly when the new position continues it */
  lemma EntersGoodIff(t: Table, t': Table, anchor: BlockId, k: nat)
    requires ChainGood(t, anchor) && Grows(t, t') && Synced(t', k) && !Synced(t, k) && t'[k].at >= 1
    requires forall j :: Synced(t', j) && j != k ==> Synced(t, j) && t'[j] == t[j]
    ensures ChainGood(t', anchor) <==> Continues(t, anchor, t'[k].at, t'[k].hash, t'[k].parent)
  {
    if Continues(t, anchor, t'[k].at, t'[k].hash, t'[k].parent) {
      EntersGood(t, t', anchor, k);
    }
  }

  lemma SameSyncedGood(t: Table, t': Table, anchor: BlockId)
    requires ChainGood(t, anchor) && Grows(t, t') && forall j :: Synced(t', j) ==> Synced(t, j) && t'[j] == t[j]
    ensures ChainGood(t', anchor)
  {
    forall j | Synced(t', j)
      ensures Continues(t', anchor, t'[j].at, t'[j].hash, t'[j].parent)
    {
      ContinuesGrows(t, t', anchor, t'[j].at, t'[j].hash, t'[j].parent);
    }
  }

  // ---------------------------------------------------------------- what a good chain is

  /** without an anchor the in sync sequences are 1..n: below each there is the one before it */
  lemma {:induction false} NoGapBelow(t: Table, anchor: BlockId, k: nat, s: nat)
    requires ChainGood(t, anchor) && !anchor.Set() && Synced(t, k) && 1 <= s <= t[k].at
    ensures exists j :: Synced(t, j) && t[j].at == s
    decreases t[k].at
  {
    if s < t[k].at {
      var j :| j in t && Synced(t, j) && t[j].at + 1 == t[k].at && t[j].hash == t[k].parent;
      NoGapBelow(t, anchor, j, s);
    }
  }

  /** with an anchor: once something is in sync the anchor is, and from it on there is no gap */
  lemma {:induction false} NoGapToAnchor(t: Table, anchor: BlockId, k: nat, s: nat) returns (a: nat)
    requires Unique(t) && ChainGood(t, anchor) && anchor.Set() && Synced(t, k)
    ensures Synced(t, a) && t[a].hash == anchor.hash
    ensures t[a].at <= s <= t[k].at ==> exists j :: Synced(t, j) && t[j].at == s
    ensures t[a].at < t[k].at ==> PrecededBy(t, t[k].at, t[k].parent)
    decreases t[k].at
  {
    if t[k].hash == anchor.hash {
      a := k;
    } else if BelowHash(t, t[k].at, anchor.hash) {
      a :| a in t && Synced(t, a) && t[a].hash == anchor.hash && t[k].at < t[a].at;
    } else {
      var j :| j in t && Synced(t, j) && t[j].at + 1 == t[k].at && t[j].hash == t[k].parent;
      a := NoGapToAnchor(t, anchor, j, s);
    }
  }

  lemma Newest(t: Table) returns (n: nat)
    ensures forall k :: Synced(t, k) ==> t[k].at <= n
    ensures n > 0 ==> HasSequence(t, n)
  {
    n := 0;
    var left := t.Keys;
    while left != {}
      invariant left <= t.Keys
      invariant forall k :: Synced(t, k) && k !in left ==> t[k].at <= n
      invariant n > 0 ==> HasSequence(t, n)
      decreases left
    {
      var k :| k in left;
      if Synced(t, k) && n < t[k].at {
        n := t[k].at;
      }
      left := left - {k};
    }
  }

  /** every in sync record but the first names the hash of the one in sync right before it */
  lemma LinkedToPrevious(t: Table, anchor: BlockId, j: nat, k: nat)
    requires Unique(t) && ChainGood(t, anchor) && !anchor.Set()
    requires Synced(t, j) && Synced(t, k) && t[k].at == t[j].at + 1
    ensures t[k].parent == t[j].hash
  {
    var i :| i in t && Synced(t, i) && t[i].at + 1 == t[k].at && t[i].hash == t[k].parent;
  }

  /** the in sync records are exactly the sequences 1..n, each held once and linked to the one before */
  lemma ChainIsPrefix(t: Table, anchor: BlockId) returns (n: nat)
    requires Unique(t) && ChainGood(t, anchor) && !anchor.Set()
    ensures forall s: nat :: HasSequence(t, s) <==> 1 <= s <= n
    ensures forall k, j :: Synced(t, k) && Synced(t, j) && t[k].at == t[j].at ==> k == j
    ensures forall k :: Synced(t, k) && t[k].at == 1 ==> t[k].parent == []
  {
    n := Newest(t);
    forall s: nat
      ensures HasSequence(t, s) <==> 1 <= s <= n
    {
      if 1 <= s <= n {
        var k :| k in t && Synced(t, k) && t[k].at == n;
        NoGapBelow(t, anchor, k, s);
      }
    }
  }
}
