/**
 * The store of record data: encrypted chunk files and a table that says of every data what is
 * held of it (spsync/core/data/record_data_store.cpp). Files change only through the store.
 */
module DataStore {
  import opened Common
  import opened Octets
  import opened DataStates
  import opened DataDescriptor
  import opened ChunkBitmap

  /** the digest of the manifest: what the record commits to */
  type DataId = OctetVector

  /** hashing, uninterpreted; chunkOf and manifestOf are the inverses that no collisions leave */
  datatype Hashes = Hashes(chunkDigest: OctetVector -> OctetVector, chunkOf: OctetVector -> OctetVector,
                           manifestDigest: seq<OctetVector> -> DataId, manifestOf: DataId -> seq<OctetVector>)

  ghost predicate NoCollisions(h: Hashes) {
    && (forall c :: h.chunkOf(h.chunkDigest(c)) == c)
    && (forall m :: h.manifestOf(h.manifestDigest(m)) == m)
  }

  function DigestsOf(h: Hashes, chunks: seq<OctetVector>): seq<OctetVector> {
    seq(|chunks|, i requires 0 <= i < |chunks| => h.chunkDigest(chunks[i]))
  }

  datatype Row = Row(descriptor: Descriptor, state: DataState, have: seq<bv8>, manifest: Option<seq<OctetVector>>)

  datatype ChunkKey = ChunkKey(id: DataId, no: nat)

  /** the table, the chunk files, and how often chunks went */
  datatype Content = Content(rows: map<DataId, Row>, files: map<ChunkKey, OctetVector>, drops: nat)

  const MAX_DATA_CHUNKS := 200000

  predicate Usable(id: DataId, d: Descriptor) {
    var chunks := d.ChunkCount();
    id != [] && 1 <= chunks <= MAX_DATA_CHUNKS && d.ChunkEncSize(chunks - 1) > CHUNK_TAG_SIZE
  }

  // ---------------------------------------------------------------- what always holds

  ghost function HeldOf(row: Row): set<nat> {
    HeldIn(row.descriptor.ChunkCount(), row.have)
  }

  ghost predicate Whole(row: Row) {
    Everything(row.descriptor.ChunkCount(), HeldOf(row))
  }

  /** the chunk is the one that the data id commits to */
  predicate Verified(h: Hashes, id: DataId, no: nat, chunk: OctetVector) {
    var m := h.manifestOf(id);
    no < |m| && h.chunkDigest(chunk) == m[no]
  }

  ghost predicate HasFile(h: Hashes, files: map<ChunkKey, OctetVector>, id: DataId, no: nat) {
    ChunkKey(id, no) in files && Verified(h, id, no, files[ChunkKey(id, no)])
  }

  /** the manifest is the one committed to, every set bit has its verified chunk file */
  ghost predicate RowGood(h: Hashes, id: DataId, row: Row, files: map<ChunkKey, OctetVector>) {
    && (row.manifest.Some? ==> row.manifest.value == h.manifestOf(id))
    && (forall no: nat :: no in HeldOf(row) ==> HasFile(h, files, id, no))
  }

  ghost predicate Sound(h: Hashes, c: Content) {
    forall id :: id in c.rows ==> RowGood(h, id, c.rows[id], c.files)
  }

  /** a data that says it is here, or about to be sent, is here as a whole */
  ghost predicate Honest(row: Row) {
    row.state.DataInSync? || row.state.UploadPending? ==> Whole(row)
  }

  ghost predicate AllHonest(rows: map<DataId, Row>) {
    forall id :: id in rows ==> Honest(rows[id])
  }

  ghost function HeldChunk(c: Content, id: DataId, no: nat): Option<OctetVector> {
    if id in c.rows && no in HeldOf(c.rows[id]) && ChunkKey(id, no) in c.files then Some(c.files[ChunkKey(id, no)])
    else None
  }

  /** as long as the drops stand still, what is held stays held and stays the same */
  ghost predicate KeepsChunks(c: Content, c': Content) {
    && c.drops <= c'.drops
    && (c.drops == c'.drops ==> forall id, no: nat :: HeldChunk(c, id, no).Some? ==>
                                                        HeldChunk(c', id, no) == HeldChunk(c, id, no))
  }

  // ---------------------------------------------------------------- steps on the content

  lemma PutRow(h: Hashes, c: Content, id: DataId, row: Row)
    requires Sound(h, c) && RowGood(h, id, row, c.files)
    ensures Sound(h, c.(rows := c.rows[id := row]))
  {
  }

  lemma PutFile(h: Hashes, c: Content, id: DataId, no: nat, chunk: OctetVector)
    requires Sound(h, c) && Verified(h, id, no, chunk)
    ensures Sound(h, c.(files := c.files[ChunkKey(id, no) := chunk]))
  {
    var files := c.files[ChunkKey(id, no) := chunk];
    forall i | i in c.rows
      ensures RowGood(h, i, c.rows[i], files)
    {
      assert forall n: nat :: HasFile(h, c.files, i, n) ==> HasFile(h, files, i, n);
    }
  }

  /** two verified chunks of the same place are the same chunk */
  lemma SameChunk(h: Hashes, id: DataId, no: nat, a: OctetVector, b: OctetVector)
    requires NoCollisions(h) && Verified(h, id, no, a) && Verified(h, id, no, b)
    ensures a == b
  {
    assert h.chunkOf(h.chunkDigest(a)) == a && h.chunkOf(h.chunkDigest(b)) == b;
  }

  function WithoutData(files: map<ChunkKey, OctetVector>, id: DataId): map<ChunkKey, OctetVector> {
    map key | key in files && key.id != id :: files[key]
  }

  function WithData(files: map<ChunkKey, OctetVector>, id: DataId, chunks: seq<OctetVector>): map<ChunkKey,
                    OctetVector> {
    WithoutData(files, id) + map no: nat | no < |chunks| :: ChunkKey(id, no) := chunks[no]
  }

  lemma RemoveFiles(h: Hashes, c: Content, id: DataId)
    requires Sound(h, c) && (id in c.rows ==> HeldOf(c.rows[id]) == {})
    ensures Sound(h, c.(files := WithoutData(c.files, id)))
  {
    var files := WithoutData(c.files, id);
    forall i | i in c.rows
      ensures RowGood(h, i, c.rows[i], files)
    {
      if i != id {
        assert forall n: nat :: HasFile(h, c.files, i, n) ==> HasFile(h, files, i, n);
      }
    }
  }

  /** all chunks of a data at once: files, and a row that may say any of them is held */
  lemma PutData(h: Hashes, c: Content, id: DataId, row: Row, chunks: seq<OctetVector>)
    requires Sound(h, c) && h.manifestOf(id) == DigestsOf(h, chunks)
    requires row.manifest == Some(h.manifestOf(id)) && forall no :: no in HeldOf(row) ==> no < |chunks|
    ensures Sound(h, c.(rows := c.rows[id := row], files := WithData(c.files, id, chunks)))
  {
    var files := WithData(c.files, id, chunks);
    forall i | i in c.rows && i != id
      ensures RowGood(h, i, c.rows[i], files)
    {
      assert forall n: nat :: HasFile(h, c.files, i, n) ==> HasFile(h, files, i, n);
    }
    forall n: nat | n < |chunks|
      ensures HasFile(h, files, id, n)
    {
    }
  }

  lemma PutDataKeeps(h: Hashes, c: Content, id: DataId, row: Row, chunks: seq<OctetVector>)
    requires NoCollisions(h) && Sound(h, c) && h.manifestOf(id) == DigestsOf(h, chunks)
    requires id in c.rows ==> row.descriptor == c.rows[id].descriptor
    requires forall no: nat :: no < |chunks| && no < row.descriptor.ChunkCount() ==> no in HeldOf(row)
    ensures KeepsChunks(c, c.(rows := c.rows[id := row], files := WithData(c.files, id, chunks)))
  {
    var c' := c.(rows := c.rows[id := row], files := WithData(c.files, id, chunks));
    forall i, no: nat | HeldChunk(c, i, no).Some?
      ensures HeldChunk(c', i, no) == HeldChunk(c, i, no)
    {
      assert HasFile(h, c.files, i, no);
      if i == id {
        assert Verified(h, id, no, chunks[no]);
        SameChunk(h, id, no, c.files[ChunkKey(id, no)], chunks[no]);
      }
    }
  }

  /** the octets of n held chunks, read back for a data that counts its own chunks */
  lemma ReadBack(row: Row, n: nat)
    requires Normal(n, row.have) && Everything(n, HeldIn(n, row.have))
    ensures forall no: nat :: no in HeldOf(row) <==> no < n && no < row.descriptor.ChunkCount()
    ensures Whole(row) <==> row.descriptor.ChunkCount() <= n
  {
    var count := row.descriptor.ChunkCount();
    forall no: nat
      ensures Has(row.have, no) <==> no < n
    {
      if no < n {
        assert no in HeldIn(n, row.have);
      }
    }
    if count > n {
      assert n !in HeldOf(row);
    }
  }

  ghost predicate AllThere(h: Hashes, files: map<ChunkKey, OctetVector>, id: DataId, nos: set<nat>) {
    forall no :: no in nos ==> HasFile(h, files, id, no)
  }

  /** a row that says chunks are held leaves the table right exactly when their files are there */
  lemma PutRowIff(h: Hashes, c: Content, id: DataId, row: Row)
    requires Sound(h, c) && (row.manifest.Some? ==> row.manifest.value == h.manifestOf(id))
    ensures Sound(h, c.(rows := c.rows[id := row])) <==> AllThere(h, c.files, id, HeldOf(row))
  {
    var c' := c.(rows := c.rows[id := row]);
    if Sound(h, c') {
      assert RowGood(h, id, c'.rows[id], c'.files);
    }
  }

  lemma PutRowKeeps(h: Hashes, c: Content, id: DataId, row: Row, chunks: seq<OctetVector>)
    requires Sound(h, c) && h.manifestOf(id) == DigestsOf(h, chunks)
    requires id in c.rows ==> row.descriptor == c.rows[id].descriptor
    requires forall no: nat :: no < |chunks| && no < row.descriptor.ChunkCount() ==> no in HeldOf(row)
    ensures KeepsChunks(c, c.(rows := c.rows[id := row]))
  {
    var c' := c.(rows := c.rows[id := row]);
    forall i, no: nat | HeldChunk(c, i, no).Some?
      ensures HeldChunk(c', i, no) == HeldChunk(c, i, no)
    {
      assert HasFile(h, c.files, i, no);
    }
  }

  /** the row of the data says that every chunk of it is held, and the chunks were put there */
  ghost predicate Registered(h: Hashes, c: Content, c': Content, id: DataId, d: Descriptor, chunks: seq<OctetVector>,
                             state: DataState, put: bool) {
    && id in c'.rows && c'.rows == c.rows[id := c'.rows[id]] && c'.drops == c.drops
    && c'.files == (if put then WithData(c.files, id, chunks) else c.files)
    && var row := c'.rows[id];
       && row.state == state && row.manifest == Some(DigestsOf(h, chunks))
       && row.descriptor == (if id in c.rows then c.rows[id].descriptor else d)
       && (forall no: nat :: no in HeldOf(row) <==> no < |chunks| && no < row.descriptor.ChunkCount())
       && (Honest(row) <==> row.descriptor.ChunkCount() <= |chunks|)
  }

  lemma KeepsTransitive(a: Content, b: Content, c: Content)
    requires KeepsChunks(a, b) && KeepsChunks(b, c)
    ensures KeepsChunks(a, c)
  {
    if a.drops == c.drops {
      forall id, no: nat | HeldChunk(a, id, no).Some?
        ensures HeldChunk(c, id, no) == HeldChunk(a, id, no)
      {
        assert HeldChunk(b, id, no) == HeldChunk(a, id, no);
      }
    }
  }

  lemma RegisteredSince(h: Hashes, a: Content, b: Content, c: Content, id: DataId, d: Descriptor,
                        chunks: seq<OctetVector>,
                        state: DataState, put: bool)
    requires id in b.rows && Registered(h, b, c, id, b.rows[id].descriptor, chunks, state, put)
    requires b.files == a.files && b.drops == a.drops && b.rows == a.rows[id := b.rows[id]]
    requires b.rows[id].descriptor == if id in a.rows then a.rows[id].descriptor else d
    ensures Registered(h, a, c, id, d, chunks, state, put)
  {
    Overwritten(a.rows, id, b.rows[id], c.rows[id]);
  }

  predicate NamesChunk(h: Hashes, manifest: seq<OctetVector>, no: nat, chunk: OctetVector) {
    no < |manifest| && manifest[no] == h.chunkDigest(chunk)
  }

  /** the manifest is the one that the id commits to, and of the descriptor's length */
  predicate Matches(h: Hashes, manifest: seq<OctetVector>, id: DataId, d: Descriptor) {
    |manifest| == d.ChunkCount() && h.manifestDigest(manifest) == id
  }

  /** a row changes its state or learns its manifest, what is held stays */
  lemma PutSame(h: Hashes, c: Content, id: DataId, row: Row)
    requires Sound(h, c) && id in c.rows && HeldOf(row) == HeldOf(c.rows[id])
    requires row.manifest.Some? ==> row.manifest.value == h.manifestOf(id)
    ensures Sound(h, c.(rows := c.rows[id := row])) && KeepsChunks(c, c.(rows := c.rows[id := row]))
  {
  }

  /** a row learns of chunks that have their files */
  lemma PutMore(h: Hashes, c: Content, id: DataId, row: Row)
    requires Sound(h, c) && id in c.rows && HeldOf(c.rows[id]) <= HeldOf(row) && row.manifest == c.rows[id].manifest
    requires forall no: nat :: no in HeldOf(row) ==> no in HeldOf(c.rows[id]) || HasFile(h, c.files, id, no)
    ensures Sound(h, c.(rows := c.rows[id := row])) && KeepsChunks(c, c.(rows := c.rows[id := row]))
  {
  }

  lemma KeepFile(h: Hashes, c: Content, id: DataId, no: nat, chunk: OctetVector)
    requires Sound(h, c) && Verified(h, id, no, chunk) && HeldChunk(c, id, no).None?
    ensures var c' := c.(files := c.files[ChunkKey(id, no) := chunk]);
            Sound(h, c') && KeepsChunks(c, c') && HasFile(h, c'.files, id, no)
  {
    PutFile(h, c, id, no, chunk);
  }

  lemma LoseChunk(h: Hashes, c: Content, id: DataId, no: nat, row: Row)
    requires Sound(h, c) && id in c.rows && HeldOf(row) == HeldOf(c.rows[id]) - {no}
    requires row.manifest == c.rows[id].manifest
    ensures Sound(h, c.(rows := c.rows[id := row], files := c.files - {ChunkKey(id, no)}))
  {
    var files := c.files - {ChunkKey(id, no)};
    forall i | i in c.rows && i != id
      ensures RowGood(h, i, c.rows[i], files)
    {
      assert forall n: nat :: HasFile(h, c.files, i, n) ==> HasFile(h, files, i, n);
    }
    assert forall n: nat :: n != no && HasFile(h, c.files, id, n) ==> HasFile(h, files, id, n);
  }

  lemma ForgetRow(h: Hashes, c: Content, id: DataId)
    requires Sound(h, c)
    ensures Sound(h, c.(rows := c.rows - {id}, files := WithoutData(c.files, id)))
    ensures id in c.rows ==> |c.rows - {id}| == |c.rows| - 1
  {
    var c' := c.(rows := c.rows - {id});
    assert Sound(h, c');
    RemoveFiles(h, c', id);
    if id in c.rows {
      assert c.rows.Keys == c'.rows.Keys + {id};
      assert |c.rows.Keys| == |c.rows| && |c'.rows.Keys| == |c'.rows|;
    }
  }

  /** one more chunk, its file and its bit; the last one missing makes the data in sync unless it is to be uploaded */
  ghost predicate TakesChunk(c: Content, c': Content, id: DataId, no: nat, chunk: OctetVector) {
    && id in c.rows && id in c'.rows && c'.rows == c.rows[id := c'.rows[id]] && c'.drops == c.drops
    && c'.files == c.files[ChunkKey(id, no) := chunk]
    && var row, row' := c.rows[id], c'.rows[id];
       && row'.descriptor == row.descriptor && row'.manifest == row.manifest
       && HeldOf(row') == HeldOf(row) + (if no < row.descriptor.ChunkCount() then {no} else {})
       && row'.state == if no !in HeldOf(row) && Whole(row') && !row.state.UploadPending? then DataInSync else row.state
  }

  // ---------------------------------------------------------------- the store

  class RecordDataStore {
    const hashes: Hashes
    var rows: map<DataId, Row>
    var files: map<ChunkKey, OctetVector>
    /** counts the times held chunks went */
    var drops: nat

    ghost function Now(): Content
      reads this
    {
      Content(rows, files, drops)
    }

    ghost predicate Valid()
      reads this
    {
      NoCollisions(hashes) && Sound(hashes, Now())
    }

    constructor (hashes: Hashes)
      requires NoCollisions(hashes)
      ensures Valid() && rows == map[] && this.hashes == hashes && AllHonest(rows)
    {
      this.hashes := hashes;
      rows, files, drops := map[], map[], 0;
    }

    /** the row of the data, made when there is none; refused for a descriptor out of bounds */
    method Ensure(id: DataId, d: Descriptor) returns (ok: bool)
      requires Valid()
      modifies this`rows
      ensures Valid() && KeepsChunks(old(Now()), Now())
      ensures ok == Usable(id, d)
      ensures !ok || id in old(rows) ==> rows == old(rows)
      ensures ok && id !in old(rows) ==>
                && rows.Keys == old(rows).Keys + {id} && rows == old(rows)[id := rows[id]]
                && rows[id].descriptor == d && rows[id].state.Deferred? && HeldOf(rows[id]) == {} &&
                   rows[id].manifest == None
      ensures AllHonest(old(rows)) ==> AllHonest(rows)
    {
      ok := Usable(id, d);
      if ok && id !in rows {
        var have := new HaveBitmap(d.ChunkCount());
        var row := Row(d, Deferred, have.octets, None);
        PutRow(hashes, Now(), id, row);
        rows := rows[id := row];
      }
    }

    /**
     * The staged chunks of a whole data become the data: a writer's, or rebuilt from held content in
     * place of whatever part of it was held. A writer's are discarded when the directory of the data
     * is present; what the row says is then right exactly when every chunk is already there. The row
     * is honest exactly when the descriptor known for it does not count more chunks than there are.
     */
    method RegisterHeld(d: Descriptor, staged: seq<OctetVector>, state: DataState, replace: bool, present: bool)
      returns (ok: bool)
      requires Valid() && d.ChunkCount() == |staged| && (state.UploadPending? || state.DataInSync?)
      requires (exists no :: ChunkKey(hashes.manifestDigest(DigestsOf(hashes, staged)), no) in files) ==> present
      modifies this`rows, this`files
      ensures KeepsChunks(old(Now()), Now())
      ensures var id := hashes.manifestDigest(DigestsOf(hashes, staged));
              && ok == Usable(id, d)
              && (if ok then Registered(hashes, old(Now()), Now(), id, d, staged, state, replace || !present)
                  else Now() == old(Now()))
              && (Valid() <==> ok && !replace && present ==> AllThere(hashes, old(files), id, HeldOf(rows[id])))
    {
      var id := hashes.manifestDigest(DigestsOf(hashes, staged));
      ok := Ensure(id, d);
      if ok {
        ghost var ensured := Now();
        SetHeld(id, staged, state, replace || !present);
        KeepsTransitive(old(Now()), ensured, Now());
        RegisteredSince(hashes, old(Now()), ensured, Now(), id, d, staged, state, replace || !present);
      }
    }

    /** the row says that everything is held, the staged chunks are put in place or discarded */
    method SetHeld(id: DataId, staged: seq<OctetVector>, state: DataState, put: bool)
      requires Valid() && id in rows && id == hashes.manifestDigest(DigestsOf(hashes, staged))
      requires state.UploadPending? || state.DataInSync?
      modifies this`rows, this`files
      ensures KeepsChunks(old(Now()), Now())
      ensures Registered(hashes, old(Now()), Now(), id, old(rows)[id].descriptor, staged, state, put)
      ensures Valid() <==> put || AllThere(hashes, old(files), id, HeldOf(rows[id]))
    {
      var have := new HaveBitmap(|staged|);
      have.SetAll();
      var row := rows[id].(state := state, manifest := Some(DigestsOf(hashes, staged)), have := have.octets);
      ReadBack(row, |staged|);
      if put {
        PutData(hashes, Now(), id, row, staged);
        PutDataKeeps(hashes, Now(), id, row, staged);
        files := WithData(files, id, staged);
      } else {
        PutRowIff(hashes, Now(), id, row);
        PutRowKeeps(hashes, Now(), id, row, staged);
      }
      rows := rows[id := row];
    }

    /** make a data known, its manifest too when it is given and the descriptor's */
    method RegisterData(id: DataId, d: Descriptor, manifest: Option<seq<OctetVector>>) returns (known: bool)
      requires Valid()
      modifies this`rows
      ensures Valid() && KeepsChunks(old(Now()), Now()) && (AllHonest(old(rows)) ==> AllHonest(rows))
      ensures known ==> id in rows && rows[id].descriptor == d && (manifest.Some? ==> rows[id].manifest == manifest)
      ensures known <==> Usable(id, d) && (manifest.Some? ==> Matches(hashes, manifest.value, id, d))
                         && (id in old(rows) ==> old(rows)[id].descriptor == d)
      ensures known ==> rows == old(rows)[id := rows[id]]
                        && rows[id].state == (if id in old(rows) then old(rows)[id].state else Deferred)
                        && HeldOf(rows[id]) == (if id in old(rows) then HeldOf(old(rows)[id]) else {})
    {
      known := manifest.None? || Matches(hashes, manifest.value, id, d);
      if known {
        known := Ensure(id, d);
        if known {
          known := rows[id].descriptor == d;
          if known && manifest.Some? {
            PutSame(hashes, Now(), id, rows[id].(manifest := manifest));
            rows := rows[id := rows[id].(manifest := manifest)];
          }
        }
      }
    }

    /** the bit of a chunk that has its verified file; the last one makes the data in sync */
    method MarkHeld(id: DataId, no: nat)
      requires Valid() && id in rows && HasFile(hashes, files, id, no)
      modifies this`rows
      ensures Valid() && KeepsChunks(old(Now()), Now()) && (AllHonest(old(rows)) ==> AllHonest(rows))
      ensures id in rows && rows == old(rows)[id := rows[id]] && rows[id].descriptor == old(rows)[id].descriptor
      ensures rows[id].manifest == old(rows)[id].manifest
      ensures HeldOf(rows[id]) == HeldOf(old(rows)[id]) + if no < rows[id].descriptor.ChunkCount() then {no} else {}
      ensures rows[id].state == if Whole(rows[id]) && !old(rows)[id].state.UploadPending? then DataInSync
                                else old(rows)[id].state
    {
      var row := rows[id];
      var have := new HaveBitmap.FromOctets(row.descriptor.ChunkCount(), row.have);
      have.Set(no, true);
      var complete := have.Complete();
      var state := if complete && !row.state.UploadPending? then DataInSync else row.state;
      PutMore(hashes, Now(), id, row.(have := have.octets, state := state));
      rows := rows[id := row.(have := have.octets, state := state)];
    }

    /** keep a received chunk, if it is the one the manifest names */
    method StoreChunk(id: DataId, no: nat, encrypted: OctetVector) returns (ok: bool)
      requires Valid()
      modifies this`rows, this`files
      ensures Valid() && KeepsChunks(old(Now()), Now()) && (AllHonest(old(rows)) ==> AllHonest(rows))
      ensures ok <==> id in old(rows) && old(rows)[id].manifest.Some? && Verified(hashes, id, no, encrypted)
      ensures !ok ==> rows == old(rows) && files == old(files)
      ensures ok ==> TakesChunk(old(Now()), Now(), id, no, encrypted)
    {
      ok := id in rows && rows[id].manifest.Some? && NamesChunk(hashes, rows[id].manifest.value, no, encrypted);
      if ok {
        var have := new HaveBitmap.FromOctets(rows[id].descriptor.ChunkCount(), rows[id].have);
        var held := have.Test(no);
        if held {
          assert HasFile(hashes, files, id, no);
          SameChunk(hashes, id, no, files[ChunkKey(id, no)], encrypted);
        } else {
          KeepFile(hashes, Now(), id, no, encrypted);
          files := files[ChunkKey(id, no) := encrypted];
          MarkHeld(id, no);
        }
      }
    }

    /** a chunk that came in pieces and verified */
    method AdoptChunk(id: DataId, no: nat, staged: OctetVector) returns (known: bool)
      requires Valid() && Verified(hashes, id, no, staged)
      modifies this`rows, this`files
      ensures Valid() && KeepsChunks(old(Now()), Now()) && (AllHonest(old(rows)) ==> AllHonest(rows))
      ensures known <==> id in old(rows)
      ensures !known ==> rows == old(rows) && files == old(files)
      ensures known ==> TakesChunk(old(Now()), Now(), id, no, staged)
    {
      known := id in rows;
      if known {
        var have := new HaveBitmap.FromOctets(rows[id].descriptor.ChunkCount(), rows[id].have);
        var held := have.Test(no);
        if held {
          assert HasFile(hashes, files, id, no);
          SameChunk(hashes, id, no, files[ChunkKey(id, no)], staged);
        } else {
          KeepFile(hashes, Now(), id, no, staged);
          files := files[ChunkKey(id, no) := staged];
          MarkHeld(id, no);
        }
      }
    }

    method ReadChunk(id: DataId, no: nat) returns (chunk: Option<OctetVector>)
      requires Valid()
      ensures chunk == HeldChunk(Now(), id, no)
      ensures chunk.Some? ==> Verified(hashes, id, no, chunk.value)
    {
      chunk := None;
      if id in rows {
        var have := new HaveBitmap.FromOctets(rows[id].descriptor.ChunkCount(), rows[id].have);
        var held := have.Test(no);
        if held {
          assert HasFile(hashes, files, id, no);
          chunk := Some(files[ChunkKey(id, no)]);
        }
      }
    }

    /** a chunk that is not good any more goes; a data that nobody else has becomes invalid instead */
    method DropChunk(id: DataId, no: nat)
      requires Valid() && id in rows
      modifies this
      ensures Valid() && drops == old(drops) + 1 && (AllHonest(old(rows)) ==> AllHonest(rows))
      ensures id in rows && rows == old(rows)[id := rows[id]] && rows[id].descriptor == old(rows)[id].descriptor
      ensures if old(rows)[id].state.UploadPending?
              then rows[id] == old(rows)[id].(state := DataInvalid) && files == old(files)
              else rows[id].state.DownloadPending? && HeldOf(rows[id]) == HeldOf(old(rows)[id]) - {no} &&
                   files == old(files) - {ChunkKey(id, no)}
    {
      drops := drops + 1;
      var row := rows[id];
      if row.state.UploadPending? {
        PutSame(hashes, Now(), id, row.(state := DataInvalid));
        rows := rows[id := row.(state := DataInvalid)];
      } else {
        var have := new HaveBitmap.FromOctets(row.descriptor.ChunkCount(), row.have);
        have.Set(no, false);
        LoseChunk(hashes, Now(), id, no, row.(have := have.octets, state := DownloadPending));
        files := files - {ChunkKey(id, no)};
        rows := rows[id := row.(have := have.octets, state := DownloadPending)];
      }
    }

    /** a held chunk did not decrypt: rot when it is not the manifest's, else the data is invalid for good */
    method ChunkFailed(id: DataId, no: nat, encrypted: OctetVector)
      requires Valid()
      modifies this
      ensures Valid() && KeepsChunks(old(Now()), Now()) && (AllHonest(old(rows)) ==> AllHonest(rows))
      ensures id !in old(rows) ==> Now() == old(Now())
      ensures id in old(rows) && (old(rows)[id].manifest.None? || Verified(hashes, id, no, encrypted)) ==>
                rows == old(rows)[id := old(rows)[id].(state := DataInvalid)] && files == old(files) &&
                drops == old(drops)
      ensures id in old(rows) && old(rows)[id].manifest.Some? && !Verified(hashes, id, no, encrypted) ==>
                && drops == old(drops) + 1 && id in rows && rows == old(rows)[id := rows[id]]
                && rows[id].state == (if old(rows)[id].state.UploadPending? then DataInvalid else DownloadPending)
                && (old(rows)[id].state.UploadPending? || HeldOf(rows[id]) == HeldOf(old(rows)[id]) - {no})
    {
      if id in rows {
        var row := rows[id];
        if row.manifest.Some? && !NamesChunk(hashes, row.manifest.value, no, encrypted) {
          DropChunk(id, no);
        } else {
          PutSame(hashes, Now(), id, row.(state := DataInvalid));
          rows := rows[id := row.(state := DataInvalid)];
        }
      }
    }

    /** the chunks of a data go, its row and manifest stay */
    method DropChunks(id: DataId, state: DataState)
      requires Valid() && id in rows
      modifies this
      ensures Valid() && drops == old(drops) + 1
      ensures id in rows && rows == old(rows)[id := rows[id]] && files == WithoutData(old(files), id)
      ensures rows[id].(have := []) == old(rows)[id].(have := [], state := state) && HeldOf(rows[id]) == {}
    {
      drops := drops + 1;
      var row := rows[id];
      var have := new HaveBitmap.FromOctets(row.descriptor.ChunkCount(), row.have);
      have.Clear();
      PutRow(hashes, Now(), id, row.(have := have.octets, state := state));
      rows := rows[id := row.(have := have.octets, state := state)];
      RemoveFiles(hashes, Now(), id);
      files := WithoutData(files, id);
    }

    /** drop the local chunks; refused while they may be the only copy */
    method Evict(id: DataId) returns (ok: bool)
      requires Valid()
      modifies this
      ensures Valid() && KeepsChunks(old(Now()), Now()) && (AllHonest(old(rows)) ==> AllHonest(rows))
      ensures ok <==> id in old(rows) && !old(rows)[id].state.UploadPending?
      ensures !ok ==> Now() == old(Now())
      ensures ok ==> && drops > old(drops) && id in rows && rows == old(rows)[id := rows[id]] && HeldOf(rows[id]) == {}
                     && var row := old(rows)[id];
                        rows[id].(have := []) ==
                        row.(have := [], state := if row.state.DataInSync? then Removed else row.state)
    {
      ok := id in rows && !rows[id].state.UploadPending?;
      if ok {
        var state := rows[id].state;
        DropChunks(id, if state.DataInSync? || state.Removed? then Removed else state);
      }
    }

    method Prune(id: DataId) returns (known: bool)
      requires Valid()
      modifies this
      ensures Valid() && KeepsChunks(old(Now()), Now()) && (AllHonest(old(rows)) ==> AllHonest(rows))
      ensures known <==> id in old(rows)
      ensures !known ==> Now() == old(Now())
      ensures known ==> drops > old(drops) && id in rows && rows == old(rows)[id := rows[id]] &&
                        HeldOf(rows[id]) == {} && rows[id].state.Pruned?
                        && rows[id].descriptor == old(rows)[id].descriptor
    {
      known := id in rows;
      if known {
        DropChunks(id, Pruned);
      }
    }

    /** rows and chunks go; how many of the ids were known */
    method Remove(ids: seq<DataId>) returns (removed: nat)
      requires Valid()
      modifies this
      ensures Valid() && KeepsChunks(old(Now()), Now()) && (AllHonest(old(rows)) ==> AllHonest(rows))
      ensures rows == map id | id in old(rows) && id !in ids :: old(rows)[id]
      ensures removed + |rows| == |old(rows)| && drops == old(drops) + removed
    {
      removed := 0;
      var i := 0;
      while i < |ids|
        invariant i <= |ids| && Valid() && removed + |rows| == |old(rows)| && drops == old(drops) + removed
        invariant rows == map id | id in old(rows) && id !in ids[..i] :: old(rows)[id]
        invariant removed == 0 ==> rows == old(rows) && files == old(files)
      {
        var id := ids[i];
        assert ids[..i + 1] == ids[..i] + [id];
        if id in rows {
          drops := drops + 1;
          ForgetRow(hashes, Now(), id);
          rows := rows - {id};
          files := WithoutData(files, id);
          removed := removed + 1;
        }
        i := i + 1;
      }
      assert ids[..i] == ids;
    }

    /** the state as the caller says; whether it is honest is the caller's matter */
    method SetState(id: DataId, state: DataState)
      requires Valid()
      modifies this`rows
      ensures Valid() && KeepsChunks(old(Now()), Now())
      ensures rows == if id in old(rows) then old(rows)[id := old(rows)[id].(state := state)] else old(rows)
    {
      if id in rows {
        PutSame(hashes, Now(), id, rows[id].(state := state));
        rows := rows[id := rows[id].(state := state)];
      }
    }
  }

  /** a new record names the data: a pruned one may be wanted again */
  method Reference(store: RecordDataStore, id: DataId, d: Descriptor) returns (ok: bool)
    requires store.Valid()
    modifies store`rows
    ensures store.Valid() && KeepsChunks(old(store.Now()), store.Now())
    ensures (AllHonest(old(store.rows)) ==> AllHonest(store.rows))
    ensures ok == Usable(id, d) && (!ok ==> store.rows == old(store.rows))
    ensures ok ==> && id in store.rows && store.rows == old(store.rows)[id := store.rows[id]]
                   && (id !in old(store.rows) ==> store.rows[id].state.Deferred? && HeldOf(store.rows[id]) == {} &&
                                                  store.rows[id].descriptor == d)
                   && (id in old(store.rows) ==>
                         store.rows[id] == old(store.rows)[id].(state := if old(store.rows)[id].state.Pruned?
                                                                         then Deferred else old(store.rows)[id].state))
  {
    ok := store.Ensure(id, d);
    if ok && store.rows[id].state.Pruned? {
      store.SetState(id, Deferred);
    }
  }

  /**
   * A descriptor that is not the data's own, with the right id and two chunks instead of one: the
   * data rebuilt over that row is said to be in sync and is not complete.
   */
  method ContradictedRow(h: Hashes, chunk: OctetVector) returns (store: RecordDataStore)
    requires NoCollisions(h) && CHUNK_TAG_SIZE < |chunk| && h.manifestDigest(DigestsOf(h, [chunk])) != []
    ensures fresh(store) && store.Valid() && !AllHonest(store.rows)
  {
    store := new RecordDataStore(h);
    var id := h.manifestDigest(DigestsOf(h, [chunk]));
    var own, other := Descriptor(|chunk|, |chunk|), Descriptor(2 * (|chunk| + CHUNK_TAG_SIZE), |chunk|);
    OneChunk(own);
    TwoChunks(other);
    var known := store.RegisterData(id, other, None);
    var ok := store.RegisterHeld(own, [chunk], DataInSync, true, true);
    assert !Honest(store.rows[id]);
  }

  lemma OneChunk(d: Descriptor)
    requires CHUNK_TAG_SIZE < d.encSize <= d.PerChunk() && d.chunkSize != 0
    ensures d.ChunkCount() == 1 && d.ChunkEncSize(0) == d.encSize
  {
    ChunkStarts(d, 0);
    ChunkStarts(d, 1);
  }

  lemma TwoChunks(d: Descriptor)
    requires d.encSize == 2 * d.PerChunk() && d.chunkSize != 0
    ensures d.ChunkCount() == 2 && d.ChunkEncSize(1) == d.PerChunk()
  {
    ChunkStarts(d, 1);
    ChunkStarts(d, 2);
  }
}
