/**
 * Reading a stored data through a handle that keeps the chunk it decrypted last
 * (spsync/core/data/record_data_store.cpp): the cache never shows.
 */
module DataReader {
  import opened Common
  import opened Octets
  import opened DataDescriptor
  import opened DataCrypt
  import opened DataStore

  // ---------------------------------------------------------------- the key candidates

  /** the plaintext that the first candidate to authenticate the chunk gives */
  function FirstPlain(keys: seq<ChunkCrypto>, d: Descriptor, plainSize: nat, no: nat,
                      chunk: OctetVector): Option<OctetVector> {
    if keys == [] then None
    else
      var plain := Decrypt(keys[0], d, plainSize, no, chunk);
      if plain.Some? then plain else FirstPlain(keys[1..], d, plainSize, no, chunk)
  }

  ghost predicate AgreeOn(a: ChunkCrypto, b: ChunkCrypto, no: nat, chunk: OctetVector) {
    a.decrypt(no, chunk).Some? && b.decrypt(no, chunk).Some? ==> a.decrypt(no, chunk) == b.decrypt(no, chunk)
  }

  /** authenticated encryption: a chunk does not open to two plaintexts */
  ghost predicate Agree(keys: seq<ChunkCrypto>) {
    forall a, b, no: nat, chunk :: a in keys && b in keys ==> AgreeOn(a, b, no, chunk)
  }

  lemma {:induction false} AnyPlain(keys: seq<ChunkCrypto>, d: Descriptor, plainSize: nat, no: nat, chunk: OctetVector,
                                    k: ChunkCrypto)
    requires Agree(keys) && k in keys && Decrypt(k, d, plainSize, no, chunk).Some?
    ensures FirstPlain(keys, d, plainSize, no, chunk) == Decrypt(k, d, plainSize, no, chunk)
    decreases |keys|
  {
    assert AgreeOn(keys[0], k, no, chunk);
    if Decrypt(keys[0], d, plainSize, no, chunk).None? {
      AnyPlain(keys[1..], d, plainSize, no, chunk, k);
    }
  }

  lemma {:induction false} PlainFrom(keys: seq<ChunkCrypto>, d: Descriptor, plainSize: nat, no: nat, chunk: OctetVector)
    returns (k: ChunkCrypto)
    requires FirstPlain(keys, d, plainSize, no, chunk).Some?
    ensures k in keys && Decrypt(k, d, plainSize, no, chunk) == FirstPlain(keys, d, plainSize, no, chunk)
    decreases |keys|
  {
    k := keys[0];
    if Decrypt(k, d, plainSize, no, chunk).None? {
      k := PlainFrom(keys[1..], d, plainSize, no, chunk);
    }
  }

  ghost predicate SameCandidates(a: seq<ChunkCrypto>, b: seq<ChunkCrypto>) {
    forall k :: k in a <==> k in b
  }

  /** the order of the candidates does not matter */
  lemma OrderFree(a: seq<ChunkCrypto>, b: seq<ChunkCrypto>, d: Descriptor, plainSize: nat, no: nat, chunk: OctetVector)
    requires Agree(a) && SameCandidates(a, b)
    ensures FirstPlain(a, d, plainSize, no, chunk) == FirstPlain(b, d, plainSize, no, chunk)
  {
    if FirstPlain(a, d, plainSize, no, chunk).Some? {
      var k := PlainFrom(a, d, plainSize, no, chunk);
      AnyPlain(b, d, plainSize, no, chunk, k);
    } else if FirstPlain(b, d, plainSize, no, chunk).Some? {
      var k := PlainFrom(b, d, plainSize, no, chunk);
      AnyPlain(a, d, plainSize, no, chunk, k);
    }
  }

  // ---------------------------------------------------------------- a reader without a cache

  /** what a handle is opened with */
  datatype Opening = Opening(id: DataId, descriptor: Descriptor, plainSize: nat, keys: seq<ChunkCrypto>)

  ghost function PlainAt(c: Content, o: Opening, no: nat): Option<OctetVector> {
    var chunk := HeldChunk(c, o.id, no);
    if chunk.None? then None else FirstPlain(o.keys, o.descriptor, o.plainSize, no, chunk.value)
  }

  function Least(a: nat, b: nat): nat {
    if a < b then a else b
  }

  /** at most size octets from a place in a chunk */
  function Part(chunk: OctetVector, at: nat, size: nat): OctetVector {
    if at < |chunk| then chunk[at..at + Least(size, |chunk| - at)] else []
  }

  /** the chunk with the given octet, and the place of the octet in it */
  function ChunkOf(offset: nat, chunkSize: nat): nat
    requires chunkSize > 0
  {
    offset / chunkSize
  }

  function PlaceIn(offset: nat, chunkSize: nat): nat
    requires chunkSize > 0
  {
    offset % chunkSize
  }

  ghost function PartAt(c: Content, o: Opening, offset: nat, size: nat): OctetVector {
    if o.descriptor.chunkSize == 0 then []
    else
      var plain := PlainAt(c, o, ChunkOf(offset, o.descriptor.chunkSize));
      if plain.None? then [] else Part(plain.value, PlaceIn(offset, o.descriptor.chunkSize), size)
  }

  ghost function Parts(c: Content, o: Opening): (nat, nat) -> OctetVector {
    (offset: nat, size: nat) => PartAt(c, o, offset, size)
  }

  /** part after part, until there is nothing more, the end, or the size asked */
  ghost function Joined(parts: (nat, nat) -> OctetVector, end: nat, offset: nat, size: nat): OctetVector
    decreases size
  {
    if size == 0 || offset >= end then []
    else
      var part := parts(offset, size);
      if part == [] || |part| >= size then part else part + Joined(parts, end, offset + |part|, size - |part|)
  }

  /** octets from the offset on, chunk by chunk, each fetched and decrypted anew */
  ghost function Uncached(c: Content, o: Opening, offset: nat, size: nat): OctetVector {
    Joined(Parts(c, o), o.plainSize, offset, size)
  }

  // ---------------------------------------------------------------- the handle

  /** a cache from the current count of drops is what the store holds */
  ghost predicate CacheGood(c: Content, o: Opening, cachedNo: Option<nat>, cached: OctetVector, at: nat) {
    at <= c.drops && (cachedNo.Some? && at == c.drops ==> PlainAt(c, o, cachedNo.value) == Some(cached))
  }

  /** no step of the store spoils a handle's cache unnoticed */
  lemma CacheStaysGood(c: Content, c': Content, o: Opening, cachedNo: Option<nat>, cached: OctetVector, at: nat)
    requires CacheGood(c, o, cachedNo, cached, at) && KeepsChunks(c, c')
    ensures CacheGood(c', o, cachedNo, cached, at)
  {
  }

  ghost predicate History(run: seq<Content>) {
    |run| > 0 && forall i :: 0 < i < |run| ==> KeepsChunks(run[i - 1], run[i])
  }

  /** whatever happened to the store since the last read, the handle may be read from again */
  lemma {:induction false} CacheOutlivesHistory(run: seq<Content>, o: Opening, cachedNo: Option<nat>,
                                                cached: OctetVector, at: nat)
    requires History(run) && CacheGood(run[0], o, cachedNo, cached, at)
    ensures CacheGood(run[|run| - 1], o, cachedNo, cached, at)
  {
    if |run| > 1 {
      CacheStaysGood(run[0], run[1], o, cachedNo, cached, at);
      assert forall i :: 0 < i < |run[1..]| ==> run[1..][i] == run[i + 1];
      CacheOutlivesHistory(run[1..], o, cachedNo, cached, at);
    }
  }

  class StoredRecordData {
    const store: RecordDataStore
    const opening: Opening
    var decryptors: seq<ChunkCrypto>
    var cachedNo: Option<nat>
    var cached: OctetVector
    var cachedAtDrops: nat

    ghost predicate KeysOk()
      reads this`decryptors
    {
      Agree(opening.keys) && SameCandidates(opening.keys, decryptors)
    }

    ghost predicate Valid()
      reads this, store
    {
      KeysOk() && store.Valid() && CacheGood(store.Now(), opening, cachedNo, cached, cachedAtDrops)
    }

    constructor (store: RecordDataStore, opening: Opening)
      requires store.Valid() && Agree(opening.keys)
      ensures Valid() && this.store == store && this.opening == opening
    {
      this.store, this.opening, decryptors := store, opening, opening.keys;
      cachedNo, cached, cachedAtDrops := None, [], 0;
    }

    /** the candidate that authenticates goes first and stays there */
    method DecryptChunk(no: nat, chunk: OctetVector) returns (plain: Option<OctetVector>)
      requires KeysOk()
      modifies this`decryptors
      ensures KeysOk() && plain == FirstPlain(opening.keys, opening.descriptor, opening.plainSize, no, chunk)
    {
      var d, plainSize := opening.descriptor, opening.plainSize;
      plain := None;
      var i := 0;
      ghost var keys := decryptors;
      OrderFree(opening.keys, keys, d, plainSize, no, chunk);
      while plain.None? && i < |decryptors|
        invariant i <= |decryptors| && KeysOk()
        invariant plain.None? ==> decryptors == keys
        invariant FirstPlain(keys, d, plainSize, no, chunk) == if plain.Some? then plain
                                                               else FirstPlain(keys[i..], d, plainSize, no, chunk)
        decreases |decryptors| - i
      {
        plain := Decrypt(decryptors[i], d, plainSize, no, chunk);
        assert keys[i..][1..] == keys[i + 1..];
        if plain.Some? && i != 0 {
          Swapped(opening.keys, decryptors, i);
          decryptors := decryptors[0 := decryptors[i]][i := decryptors[0]];
        }
        i := i + 1;
      }
    }

    /** make the chunk the cached one */
    method Load(no: nat) returns (ok: bool)
      requires Valid()
      modifies this, store
      ensures Valid() && KeepsChunks(old(store.Now()), store.Now())
      ensures ok <==> PlainAt(old(store.Now()), opening, no).Some?
      ensures ok ==> PlainAt(old(store.Now()), opening, no) == Some(cached) && cachedNo == Some(no)
      ensures ok ==> store.Now() == old(store.Now()) && cachedAtDrops == store.drops
    {
      if store.drops != cachedAtDrops {
        cachedNo, cached, cachedAtDrops := None, [], store.drops;
      }
      ok := cachedNo == Some(no);
      if !ok {
        var encrypted := store.ReadChunk(opening.id, no);
        if encrypted.Some? {
          var plain := DecryptChunk(no, encrypted.value);
          if plain.Some? {
            cached, cachedNo, ok := plain.value, Some(no), true;
          } else {
            store.ChunkFailed(opening.id, no, encrypted.value);
            CacheStaysGood(old(store.Now()), store.Now(), opening, cachedNo, cached, cachedAtDrops);
          }
        }
      }
    }

    /** octets out of the cached chunk from the given position in it */
    method CopyCached(at: nat, max: nat) returns (part: OctetVector)
      ensures part == Part(cached, at, max)
    {
      part := [];
      if at < |cached| {
        var n := if max < |cached| - at then max else |cached| - at;
        part := cached[at..at + n];
      }
    }

    /** the octets wanted of one chunk: none when it is not held or does not decrypt */
    method ReadPart(pos: nat, max: nat) returns (part: OctetVector)
      requires Valid() && opening.descriptor.chunkSize > 0
      modifies this, store
      ensures Valid() && KeepsChunks(old(store.Now()), store.Now())
      ensures part == Parts(old(store.Now()), opening)(pos, max) && |part| <= max
      ensures part != [] ==> store.Now() == old(store.Now())
    {
      part := [];
      var loaded := Load(ChunkOf(pos, opening.descriptor.chunkSize));
      if loaded {
        part := CopyCached(PlaceIn(pos, opening.descriptor.chunkSize), max);
      }
      PartLoaded(old(store.Now()), opening, pos, max, part);
    }

    /** what a reader without a cache would give at this moment */
    method Read(offset: nat, size: nat) returns (out: OctetVector)
      requires Valid()
      modifies this, store
      ensures Valid() && KeepsChunks(old(store.Now()), store.Now())
      ensures out == Uncached(old(store.Now()), opening, offset, size)
    {
      out := [];
      var ok := opening.descriptor.chunkSize != 0;
      ghost var start := store.Now();
      ghost var parts := Parts(start, opening);
      SoFarStart(parts, opening.plainSize, offset, size);
      while ok && |out| < size && offset + |out| < opening.plainSize
        invariant Valid() && KeepsChunks(start, store.Now())
        invariant ok ==> opening.descriptor.chunkSize != 0 && store.Now() == start
        invariant SoFar(parts, opening.plainSize, offset, size, out, ok)
        decreases size - |out|, ok
      {
        var part := ReadPart(offset + |out|, size - |out|);
        SoFarNext(parts, opening.plainSize, offset, size, out, part);
        ok := part != [];
        out := out + part;
      }
    }

    /** the local chunks go, this handle's cache too */
    method RemoveData()
      requires Valid()
      modifies this, store
      ensures Valid() && KeepsChunks(old(store.Now()), store.Now())
      ensures var id := opening.id;
              old(id in store.rows && !store.rows[id].state.UploadPending?) ==>
                forall no :: PlainAt(store.Now(), opening, no) == None
    {
      var evicted := store.Evict(opening.id);
      CacheStaysGood(old(store.Now()), store.Now(), opening, cachedNo, cached, cachedAtDrops);
      if evicted {
        cachedNo, cached := None, [];
      }
    }
  }

  lemma Swapped(keys: seq<ChunkCrypto>, b: seq<ChunkCrypto>, i: nat)
    requires SameCandidates(keys, b) && 0 < i < |b|
    ensures SameCandidates(keys, b[0 := b[i]][i := b[0]])
  {
    var b' := b[0 := b[i]][i := b[0]];
    forall k
      ensures k in b <==> k in b'
    {
      if k in b {
        var j :| 0 <= j < |b| && b[j] == k;
        assert b'[if j == 0 then i else if j == i then 0 else j] == k;
      }
    }
  }

  /** the read so far, and what would still be added */
  ghost predicate SoFar(parts: (nat, nat) -> OctetVector, end: nat, offset: nat, size: nat, out: OctetVector,
                        ok: bool) {
    && |out| <= size
    && Joined(parts, end, offset, size) == out + if ok then Joined(parts, end, offset + |out|, size - |out|) else []
  }

  lemma SoFarStart(parts: (nat, nat) -> OctetVector, end: nat, offset: nat, size: nat)
    ensures SoFar(parts, end, offset, size, [], true)
    ensures parts(offset, size) == [] ==> SoFar(parts, end, offset, size, [], false)
  {
    var all := Joined(parts, end, offset, size);
    assert [] + all == all;
  }

  /** the part that the cached chunk gives, if the chunk could be loaded */
  lemma PartLoaded(c: Content, o: Opening, offset: nat, size: nat, part: OctetVector)
    requires o.descriptor.chunkSize > 0
    requires var plain := PlainAt(c, o, ChunkOf(offset, o.descriptor.chunkSize));
             part == if plain.Some? then Part(plain.value, PlaceIn(offset, o.descriptor.chunkSize), size) else []
    ensures part == Parts(c, o)(offset, size) && |part| <= size
  {
  }

  lemma SoFarNext(parts: (nat, nat) -> OctetVector, end: nat, offset: nat, size: nat, out: OctetVector,
                  part: OctetVector)
    requires SoFar(parts, end, offset, size, out, true) && |out| < size && offset + |out| < end
    requires part == parts(offset + |out|, size - |out|) && |part| <= size - |out|
    ensures SoFar(parts, end, offset, size, out + part, part != [])
  {
    var pos, left := offset + |out|, size - |out|;
    if part == [] {
      assert out + part == out + [];
    } else {
      var rest := Joined(parts, end, pos + |part|, left - |part|);
      assert Joined(parts, end, pos, left) == part + rest;
      assert out + (part + rest) == out + part + rest;
    }
  }

  // ---------------------------------------------------------------- what that is of the plaintext

  /** the handle is opened for the data of that plaintext, one of its keys is the right one */
  ghost predicate OpensPlaintext(h: Hashes, o: Opening, k: ChunkCrypto, plain: OctetVector) {
    && o.descriptor.chunkSize > 0 && o.plainSize == |plain| && Laws(k) && Agree(o.keys)
    && k in o.keys
    && var chunks := ChunksOf(k, o.descriptor.chunkSize, plain);
       h.manifestOf(o.id) == DigestsOf(h, chunks) && o.descriptor.encSize == TotalSize(chunks)
  }

  /** a held chunk reads as its slice of the plaintext */
  lemma HeldReads(h: Hashes, c: Content, o: Opening, k: ChunkCrypto, plain: OctetVector, no: nat)
    requires NoCollisions(h) && Sound(h, c) && OpensPlaintext(h, o, k, plain) && no * o.descriptor.chunkSize < |plain|
    ensures PlainAt(c, o, no) ==
            if HeldChunk(c, o.id, no).Some? then Some(PlainChunk(plain, o.descriptor.chunkSize, no)) else None
  {
    var chunk := HeldChunk(c, o.id, no);
    if chunk.Some? {
      var chunks := ChunksOf(k, o.descriptor.chunkSize, plain);
      DecryptsChunk(k, o.descriptor.chunkSize, plain, no);
      assert HasFile(h, c.files, o.id, no) && Verified(h, o.id, no, chunks[no]);
      SameChunk(h, o.id, no, chunk.value, chunks[no]);
      AnyPlain(o.keys, o.descriptor, |plain|, no, chunk.value, k);
    }
  }

  /** the first chunk at or after the given one, of those below count, that is not held */
  ghost function FirstGap(held: nat -> bool, no: nat, count: nat): nat
    decreases count - no
  {
    if no >= count || !held(no) then no else FirstGap(held, no + 1, count)
  }

  /** where a read from the offset ends: at the size asked, the end of the data or the first chunk not held */
  ghost function ReadEnd(held: nat -> bool, chunkSize: nat, end: nat, offset: nat, size: nat): nat
    requires chunkSize > 0
  {
    Least(Least(offset + size, end), FirstGap(held, ChunkOf(offset, chunkSize), end) * chunkSize)
  }

  function Slice(s: OctetVector, from: nat, to: nat): OctetVector {
    if from < to <= |s| then s[from..to] else []
  }

  ghost predicate PartServes(part: OctetVector, plain: OctetVector, cs: nat, held: bool, offset: nat, size: nat)
    requires cs > 0 && offset < |plain|
  {
    if !held then part == []
    else
      && |part| == Least(size, Least(|plain| - offset, cs - PlaceIn(offset, cs)))
      && offset + |part| <= |plain| && part == plain[offset..offset + |part|]
  }

  lemma ChunkPlace(offset: nat, size: nat) returns (no: nat, at: nat)
    requires size > 0
    ensures no == ChunkOf(offset, size) && at == PlaceIn(offset, size) && offset == no * size + at && at < size
    ensures (no + 1) * size == no * size + size && ChunkOf(offset + (size - at), size) == no + 1
  {
    no, at := ChunkOf(offset, size), PlaceIn(offset, size);
    assert no * size + size == (no + 1) * size;
    DivExact(no + 1, size);
  }

  lemma DivExact(n: nat, size: nat)
    requires size > 0
    ensures n * size / size == n
  {
    var q, r := n * size / size, n * size % size;
    assert n * size == q * size + r;
    if q < n {
      MulMonotone(q + 1, n, size);
    } else if q > n {
      MulMonotone(n + 1, q, size);
    }
  }

  lemma {:induction false} GapAfter(held: nat -> bool, no: nat, count: nat)
    ensures FirstGap(held, no, count) >= no
    decreases count - no
  {
    if no < count && held(no) {
      GapAfter(held, no + 1, count);
    }
  }

  lemma NoBelow(no: nat, size: nat, n: nat)
    requires size > 0 && no * size < n
    ensures no < n
  {
    MulMonotone(1, size, no);
  }

  /** reading on after the part of one chunk ends where reading at once would */
  lemma ReadOn(held: nat -> bool, cs: nat, end: nat, offset: nat, size: nat, n: nat)
    requires cs > 0 && 0 < n && held(ChunkOf(offset, cs)) && offset < end
    requires n == Least(size, Least(end - offset, cs - PlaceIn(offset, cs)))
    ensures offset + n <= ReadEnd(held, cs, end, offset, size) <= end
    ensures ReadEnd(held, cs, end, offset + n, size - n) == ReadEnd(held, cs, end, offset, size)
            || (ReadEnd(held, cs, end, offset + n, size - n) <= offset + n &&
                ReadEnd(held, cs, end, offset, size) <= offset + n)
  {
    var no, at := ChunkPlace(offset, cs);
    NoBelow(no, cs, end);
    GapAfter(held, no + 1, end);
    MulMonotone(no + 1, FirstGap(held, no + 1, end), cs);
  }

  lemma ReadNothing(held: nat -> bool, cs: nat, end: nat, offset: nat, size: nat)
    requires cs > 0 && !held(ChunkOf(offset, cs))
    ensures ReadEnd(held, cs, end, offset, size) <= offset
  {
    var no, at := ChunkPlace(offset, cs);
  }

  lemma SliceJoin(s: OctetVector, a: nat, b: nat, e: nat, e': nat)
    requires a < b <= e <= |s| && (e' == e || (e' <= b && e <= b))
    ensures Slice(s, a, e) == s[a..b] + Slice(s, b, e')
  {
  }

  /** one part, the end of a read before it and the end after it */
  ghost predicate Fits(part: OctetVector, plain: OctetVector, offset: nat, size: nat, end: nat, after: nat) {
    && |part| <= size && end <= |plain|
    && (part == [] ==> end <= offset)
    && (part != [] ==>
          && offset + |part| <= end && part == plain[offset..offset + |part|]
          && (after == end || (after <= offset + |part| && end <= offset + |part|)))
  }

  ghost predicate FitsAt(parts: (nat, nat) -> OctetVector, ends: (nat, nat) -> nat, plain: OctetVector, offset: nat,
                         size: nat) {
    var part := parts(offset, size);
    |part| <= size && Fits(part, plain, offset, size, ends(offset, size), ends(offset + |part|, size - |part|))
  }

  ghost predicate AllFit(parts: (nat, nat) -> OctetVector, ends: (nat, nat) -> nat, plain: OctetVector) {
    && (forall offset: nat, size: nat :: ends(offset, size) <= |plain| && ends(offset, size) <= offset + size)
    && (forall offset: nat, size: nat :: offset < |plain| && size > 0 ==> FitsAt(parts, ends, plain, offset, size))
  }

  lemma {:induction false} JoinedIsSlice(parts: (nat, nat) -> OctetVector, ends: (nat, nat) -> nat, plain: OctetVector,
                                         offset: nat, size: nat)
    requires AllFit(parts, ends, plain)
    ensures Joined(parts, |plain|, offset, size) == Slice(plain, offset, ends(offset, size))
    decreases size
  {
    if size > 0 && offset < |plain| {
      var part := parts(offset, size);
      assert FitsAt(parts, ends, plain, offset, size);
      if part != [] {
        var n := |part|;
        JoinedIsSlice(parts, ends, plain, offset + n, size - n);
        SliceJoin(plain, offset, offset + n, ends(offset, size), ends(offset + n, size - n));
        assert n == size ==> Joined(parts, |plain|, offset + n, size - n) == [] && part + [] == part;
      }
    }
  }

  lemma PartOfSlice(plain: OctetVector, start: nat, end: nat, at: nat, size: nat)
    requires start + at < end <= |plain| && size > 0
    ensures var part, offset := Part(plain[start..end], at, size), start + at;
            |part| == Least(size, end - offset) && part == plain[offset..offset + |part|]
  {
    var n := Least(size, end - start - at);
    var slice := plain[start..end];
    var x, y := slice[at..at + n], plain[start + at..start + at + n];
    forall i | 0 <= i < n
      ensures x[i] == y[i]
    {
      assert slice[at + i] == plain[start + at + i];
    }
    assert x == y;
  }

  lemma PartOfChunk(plain: OctetVector, cs: nat, no: nat, at: nat, size: nat)
    requires no * cs + at < |plain| && at < cs && size > 0
    ensures no * cs < |plain|
    ensures var part, offset := Part(PlainChunk(plain, cs, no), at, size), no * cs + at;
            && |part| == Least(size, Least(|plain| - offset, cs - at))
            && part == plain[offset..offset + |part|]
  {
    var start := no * cs;
    assert (no + 1) * cs == start + cs;
    PartOfSlice(plain, start, Least(start + cs, |plain|), at, size);
    assert PlainChunk(plain, cs, no) == plain[start..Least(start + cs, |plain|)];
  }

  ghost function HeldNow(c: Content, id: DataId): nat -> bool {
    (no: nat) => HeldChunk(c, id, no).Some?
  }

  lemma PartIsSlice(h: Hashes, c: Content, o: Opening, k: ChunkCrypto, plain: OctetVector, offset: nat, size: nat)
    requires NoCollisions(h) && Sound(h, c) && OpensPlaintext(h, o, k, plain) && offset < |plain| && size > 0
    ensures var cs := o.descriptor.chunkSize;
            PartServes(Parts(c, o)(offset, size), plain, cs, HeldNow(c, o.id)(ChunkOf(offset, cs)), offset, size)
  {
    var cs := o.descriptor.chunkSize;
    var no, at := ChunkPlace(offset, cs);
    PartOfChunk(plain, cs, no, at, size);
    HeldReads(h, c, o, k, plain, no);
  }

  ghost function Ends(c: Content, o: Opening): (nat, nat) -> nat
    requires o.descriptor.chunkSize > 0
  {
    (offset: nat, size: nat) => ReadEnd(HeldNow(c, o.id), o.descriptor.chunkSize, o.plainSize, offset, size)
  }

  lemma ReadFits(h: Hashes, c: Content, o: Opening, k: ChunkCrypto, plain: OctetVector, offset: nat, size: nat)
    requires NoCollisions(h) && Sound(h, c) && OpensPlaintext(h, o, k, plain) && offset < |plain| && size > 0
    ensures FitsAt(Parts(c, o), Ends(c, o), plain, offset, size)
  {
    var cs, held, part := o.descriptor.chunkSize, HeldNow(c, o.id), Parts(c, o)(offset, size);
    PartIsSlice(h, c, o, k, plain, offset, size);
    PlaceBelow(offset, cs);
    if held(ChunkOf(offset, cs)) {
      ReadOn(held, cs, |plain|, offset, size, |part|);
    } else {
      ReadNothing(held, cs, |plain|, offset, size);
    }
  }

  /**
   * A read gives the plaintext from the offset on, cut at the size asked, the end of the data
   * or the first chunk not held.
   */
  lemma ReadsPlaintext(h: Hashes, c: Content, o: Opening, k: ChunkCrypto, plain: OctetVector, offset: nat, size: nat)
    requires NoCollisions(h) && Sound(h, c) && OpensPlaintext(h, o, k, plain)
    ensures Uncached(c, o, offset, size) ==
            Slice(plain, offset, ReadEnd(HeldNow(c, o.id), o.descriptor.chunkSize, |plain|, offset, size))
  {
    forall at: nat, n: nat | at < |plain| && n > 0
      ensures FitsAt(Parts(c, o), Ends(c, o), plain, at, n)
    {
      ReadFits(h, c, o, k, plain, at, n);
    }
    JoinedIsSlice(Parts(c, o), Ends(c, o), plain, offset, size);
  }

  lemma PlaceBelow(offset: nat, size: nat)
    requires size > 0
    ensures PlaceIn(offset, size) < size
  {
    var no, at := ChunkPlace(offset, size);
  }
}
