/**
 * A chunk on its way in, piece by piece, kept only when the whole is the one the manifest names
 * (spsync/core/data/record_data_store.cpp). The data may go, and come back, in the meantime.
 */
module IncomingChunks {
  import opened Octets
  import opened DataStore

  class IncomingChunk {
    const store: RecordDataStore
    const id: DataId
    const no: nat
    const expectedSize: nat
    const expectedDigest: OctetVector
    /** the staged file: the pieces so far */
    var staged: OctetVector
    var open: bool

    ghost predicate Valid()
      reads this
    {
      var m := store.hashes.manifestOf(id);
      no < |m| && m[no] == expectedDigest && |staged| <= expectedSize
    }

    constructor (store: RecordDataStore, id: DataId, no: nat, expectedSize: nat, expectedDigest: OctetVector)
      requires var m := store.hashes.manifestOf(id); no < |m| && m[no] == expectedDigest
      ensures Valid() && open && staged == []
      ensures this.store == store && this.id == id && this.no == no && this.expectedSize == expectedSize
    {
      this.store, this.id, this.no := store, id, no;
      this.expectedSize, this.expectedDigest := expectedSize, expectedDigest;
      staged, open := [], true;
    }

    /** the next piece; anything else loses the chunk */
    method Append(offset: nat, piece: OctetVector) returns (ok: bool)
      requires Valid()
      modifies this
      ensures Valid()
      ensures ok <==> old(open) && offset == |old(staged)| && piece != [] && |old(staged)| + |piece| <= expectedSize
      ensures if ok then open && staged == old(staged) + piece else !open
    {
      ok := open && offset == |staged| && piece != [] && |piece| <= expectedSize - |staged|;
      if ok {
        staged := staged + piece;
      } else {
        open, staged := false, [];
      }
    }

    /** what is kept is the pieces as they came, and they are the committed chunk */
    method Finish() returns (ok: bool)
      requires Valid() && store.Valid()
      modifies this, store
      ensures Valid() && store.Valid() && !open
      ensures KeepsChunks(old(store.Now()), store.Now()) && (AllHonest(old(store.rows)) ==> AllHonest(store.rows))
      ensures ok <==> && old(open) && |old(staged)| == expectedSize && Verified(store.hashes, id, no, old(staged))
                      && id in old(store.rows)
      ensures ok ==> TakesChunk(old(store.Now()), store.Now(), id, no, old(staged))
      ensures !ok ==> store.Now() == old(store.Now())
    {
      ok := open && |staged| == expectedSize && store.hashes.chunkDigest(staged) == expectedDigest;
      open := false;
      if ok {
        ok := store.AdoptChunk(id, no, staged);
      }
    }
  }

  /** the chunk can be received when its digest is known */
  method BeginChunk(store: RecordDataStore, id: DataId, no: nat) returns (chunk: IncomingChunk?)
    requires store.Valid()
    ensures chunk != null <==>
            && id in store.rows && no < store.rows[id].descriptor.ChunkCount()
            && store.rows[id].manifest.Some? && no < |store.rows[id].manifest.value|
    ensures chunk != null ==> fresh(chunk) && chunk.Valid() && chunk.open && chunk.staged == [] && chunk.store == store
                              && chunk.id == id && chunk.no == no &&
                                 chunk.expectedSize == store.rows[id].descriptor.ChunkEncSize(no)
  {
    chunk := null;
    if id in store.rows {
      var row := store.rows[id];
      if no < row.descriptor.ChunkCount() && row.manifest.Some? && no < |row.manifest.value| {
        chunk := new IncomingChunk(store, id, no, row.descriptor.ChunkEncSize(no), row.manifest.value[no]);
      }
    }
  }
}
