/**
 * Record data as encrypted chunks (spsync/core/data/data_encryptor.cpp,
 * spsync/core/data/data_decryptor.cpp): however the plaintext is fed, the chunks are the same,
 * and decrypting them in order gives the plaintext back without its padding.
 */
module DataCrypt {
  import opened Common
  import opened Octets
  import opened DataDescriptor
  import opened SizePadding

  /** chunk encryption under a data key and nonce, uninterpreted; the chunk number is authenticated with it */
  datatype ChunkCrypto = ChunkCrypto(encrypt: (nat, OctetVector) -> OctetVector,
                                     decrypt: (nat, OctetVector) -> Option<OctetVector>,
                                     digest: OctetVector -> OctetVector)

  /** decryption undoes encryption, and the ciphertext is the plaintext and a tag long */
  ghost predicate Laws(k: ChunkCrypto) {
    forall no: nat, p: OctetVector ::
      k.decrypt(no, k.encrypt(no, p)) == Some(p) && |k.encrypt(no, p)| == |p| + CHUNK_TAG_SIZE
  }

  // ---------------------------------------------------------------- what the chunks are

  function FullBlocks(s: OctetVector, size: nat): seq<OctetVector>
    requires size > 0
  {
    if |s| < size then [] else [s[..size]] + FullBlocks(s[size..], size)
  }

  /** what is left after the full blocks */
  function Rest(s: OctetVector, size: nat): OctetVector
    requires size > 0
  {
    if |s| < size then s else Rest(s[size..], size)
  }

  function Blocks(s: OctetVector, size: nat): seq<OctetVector>
    requires size > 0
  {
    FullBlocks(s, size) + if Rest(s, size) == [] then [] else [Rest(s, size)]
  }

  function Encrypted(k: ChunkCrypto, no: nat, blocks: seq<OctetVector>): seq<OctetVector>
    decreases |blocks|
  {
    if blocks == [] then [] else [k.encrypt(no, blocks[0])] + Encrypted(k, no + 1, blocks[1..])
  }

  function Digests(k: ChunkCrypto, chunks: seq<OctetVector>): seq<OctetVector> {
    if chunks == [] then [] else Digests(k, chunks[..|chunks| - 1]) + [k.digest(chunks[|chunks| - 1])]
  }

  function TotalSize(chunks: seq<OctetVector>): nat {
    if chunks == [] then 0 else TotalSize(chunks[..|chunks| - 1]) + |chunks[|chunks| - 1]|
  }

  function Zeros(n: nat): OctetVector {
    seq(n, _ => 0)
  }

  /** the plaintext with the padding of its size class */
  function Padded(plain: OctetVector): OctetVector {
    PaddedAtLeast(|plain|, MIN_PADDED_DATA_SIZE);
    plain + Zeros(PaddedSize(|plain|, MIN_PADDED_DATA_SIZE) - |plain|)
  }

  /** the encrypted chunks of a plaintext */
  function ChunksOf(k: ChunkCrypto, chunkSize: nat, plain: OctetVector): seq<OctetVector>
    requires chunkSize > 0
  {
    Encrypted(k, 0, Blocks(Padded(plain), chunkSize))
  }

  lemma {:induction false} BlocksOfJoin(s: OctetVector, t: OctetVector, size: nat)
    requires size > 0
    ensures FullBlocks(s + t, size) == FullBlocks(s, size) + FullBlocks(Rest(s, size) + t, size)
    ensures Rest(s + t, size) == Rest(Rest(s, size) + t, size)
  {
    if |s| < size {
      assert FullBlocks(s, size) + FullBlocks(s + t, size) == FullBlocks(s + t, size);
    } else {
      BlocksOfJoin(s[size..], t, size);
      assert (s + t)[size..] == s[size..] + t && (s + t)[..size] == s[..size];
      assert [s[..size]] + (FullBlocks(s[size..], size) + FullBlocks(Rest(s, size) + t, size)) ==
             FullBlocks(s, size) + FullBlocks(Rest(s, size) + t, size);
    }
  }

  lemma {:induction false} RestIsShort(s: OctetVector, size: nat)
    requires size > 0
    ensures |Rest(s, size)| < size
  {
    if |s| >= size {
      RestIsShort(s[size..], size);
    }
  }

  lemma {:induction false} EncryptedJoin(k: ChunkCrypto, no: nat, a: seq<OctetVector>, b: seq<OctetVector>)
    ensures Encrypted(k, no, a + b) == Encrypted(k, no, a) + Encrypted(k, no + |a|, b)
    ensures |Encrypted(k, no, a)| == |a|
    decreases |a|
  {
    if a == [] {
      assert a + b == b;
    } else {
      EncryptedJoin(k, no + 1, a[1..], b);
      assert (a + b)[1..] == a[1..] + b;
    }
  }

  // ---------------------------------------------------------------- the encryptor

  /** what the encryptor produced for the record: the descriptor, the true length and the chunk digests */
  datatype EncryptedData = EncryptedData(descriptor: Descriptor, plainSize: nat, manifest: seq<OctetVector>)

  /** the emitted chunks and the buffer are those of everything consumed so far */
  ghost predicate Consumed(k: ChunkCrypto, size: nat, stream: OctetVector, chunks: seq<OctetVector>,
                           buffer: OctetVector) {
    && size > 0
    && chunks == Encrypted(k, 0, FullBlocks(stream, size)) && buffer == Rest(stream, size)
  }

  /** a part that leaves the buffer short is only kept; one that fills it makes the next chunk */
  lemma ConsumedMore(k: ChunkCrypto, size: nat, stream: OctetVector, chunks: seq<OctetVector>, buffer: OctetVector,
                     part: OctetVector)
    requires Consumed(k, size, stream, chunks, buffer) && |buffer| + |part| <= size
    ensures |buffer + part| < size ==> Consumed(k, size, stream + part, chunks, buffer + part)
    ensures |buffer + part| == size ==>
              Consumed(k, size, stream + part, chunks + [k.encrypt(|chunks|, buffer + part)], [])
  {
    var whole := buffer + part;
    BlocksOfJoin(stream, part, size);
    if |whole| < size {
      assert FullBlocks(stream, size) + [] == FullBlocks(stream, size);
    } else {
      assert whole[size..] == [] && whole[..size] == whole;
      assert FullBlocks(whole, size) == [whole];
      EncryptedJoin(k, 0, FullBlocks(stream, size), [whole]);
      assert Encrypted(k, |chunks|, [whole]) == [k.encrypt(|chunks|, whole)];
    }
  }

  class DataEncryptor {
    const crypto: ChunkCrypto
    const chunkSize: nat
    var buffer: OctetVector
    var chunks: seq<OctetVector>
    var manifest: seq<OctetVector>
    var plainSize: nat
    var encSize: nat
    /** everything consumed, plaintext and padding */
    ghost var stream: OctetVector

    ghost predicate Valid()
      reads this
    {
      && Consumed(crypto, chunkSize, stream, chunks, buffer)
      && manifest == Digests(crypto, chunks) && encSize == TotalSize(chunks)
    }

    constructor (crypto: ChunkCrypto, chunkSize: nat)
      requires chunkSize > 0
      ensures Valid() && stream == [] && plainSize == 0 && this.crypto == crypto && this.chunkSize == chunkSize
    {
      this.crypto, this.chunkSize := crypto, chunkSize;
      buffer, chunks, manifest, plainSize, encSize, stream := [], [], [], 0, 0, [];
    }

    /** append plaintext, in any pieces */
    method Write(plain: OctetVector)
      requires Valid()
      modifies this
      ensures Valid() && stream == old(stream) + plain && plainSize == old(plainSize) + |plain|
    {
      plainSize := plainSize + |plain|;
      Consume(plain);
    }

    method Consume(bytes: OctetVector)
      requires Valid()
      modifies this`buffer, this`chunks, this`manifest, this`encSize, this`stream
      ensures Valid() && stream == old(stream) + bytes
    {
      var pos := 0;
      assert bytes[..0] == [] && stream + [] == stream;
      while pos < |bytes|
        invariant pos <= |bytes| && Valid() && stream == old(stream) + bytes[..pos]
      {
        RestIsShort(stream, chunkSize);
        var take := if chunkSize - |buffer| < |bytes| - pos then chunkSize - |buffer| else |bytes| - pos;
        var part := bytes[pos..pos + take];
        ConsumedMore(crypto, chunkSize, stream, chunks, buffer, part);
        assert bytes[..pos + take] == bytes[..pos] + part;
        assert old(stream) + bytes[..pos] + part == old(stream) + bytes[..pos + take];
        if buffer == [] && take == chunkSize {
          assert buffer + part == part;
          EmitChunk(part);
        } else {
          buffer := buffer + part;
          if |buffer| == chunkSize {
            EmitChunk(buffer);
            buffer := [];
          }
        }
        stream := stream + part;
        pos := pos + take;
      }
      assert bytes[..pos] == bytes;
    }

    method EmitChunk(plain: OctetVector)
      requires manifest == Digests(crypto, chunks) && encSize == TotalSize(chunks)
      modifies this`chunks, this`manifest, this`encSize
      ensures chunks == old(chunks) + [crypto.encrypt(|old(chunks)|, plain)]
      ensures manifest == Digests(crypto, chunks) && encSize == TotalSize(chunks)
    {
      var encrypted := crypto.encrypt(|chunks|, plain);
      manifest := manifest + [crypto.digest(encrypted)];
      encSize := encSize + |encrypted|;
      assert (chunks + [encrypted])[..|chunks|] == chunks;
      chunks := chunks + [encrypted];
    }

    /** zeros up to the size class, a chunk's worth at a time */
    method Pad()
      requires Valid() && |stream| == plainSize
      modifies this`buffer, this`chunks, this`manifest, this`encSize, this`stream
      ensures Valid() && stream == Padded(old(stream))
    {
      PaddedAtLeast(plainSize, MIN_PADDED_DATA_SIZE);
      var left := PaddedSize(plainSize, MIN_PADDED_DATA_SIZE) - plainSize;
      ghost var whole := left;
      var zeros := Zeros(if left < chunkSize then left else chunkSize);
      assert stream + Zeros(0) == stream;
      while left != 0
        invariant 0 <= left <= whole && Valid() && stream == old(stream) + Zeros(whole - left)
        invariant left != 0 ==> 0 < |zeros|
        invariant forall i :: 0 <= i < |zeros| ==> zeros[i] == 0
        invariant plainSize == old(plainSize)
      {
        var n := if left < |zeros| then left else |zeros|;
        Consume(zeros[..n]);
        assert Zeros(whole - left) + zeros[..n] == Zeros(whole - (left - n));
        assert old(stream) + Zeros(whole - left) + zeros[..n] == old(stream) + (Zeros(whole - left) + zeros[..n]);
        left := left - n;
      }
    }

    /** the chunks depend on the plaintext alone, not on how it was fed */
    method Finish() returns (r: EncryptedData)
      requires Valid() && |stream| == plainSize
      modifies this
      ensures chunks == ChunksOf(crypto, chunkSize, old(stream))
      ensures r == EncryptedData(Descriptor(TotalSize(chunks), chunkSize), |old(stream)|, Digests(crypto, chunks))
    {
      Pad();
      ghost var full := FullBlocks(stream, chunkSize);
      EncryptedJoin(crypto, 0, full, []);
      if buffer != [] {
        EncryptedJoin(crypto, 0, full, [buffer]);
        assert Encrypted(crypto, |full|, [buffer]) == [crypto.encrypt(|full|, buffer)];
        EmitChunk(buffer);
        buffer := [];
      } else {
        assert full + [] == full;
      }
      r := EncryptedData(Descriptor(encSize, chunkSize), plainSize, manifest);
      manifest := [];
    }
  }

  // ---------------------------------------------------------------- the descriptor describes the chunks

  /** the next block off the front */
  lemma BlocksNext(s: OctetVector, size: nat)
    requires size > 0 && |s| > 0
    ensures Blocks(s, size) == if |s| <= size then [s] else [s[..size]] + Blocks(s[size..], size)
  {
    if |s| >= size {
      if |s| == size {
        assert s[size..] == [] && s[..size] == s;
        assert FullBlocks(s, size) == [s] && Rest(s, size) == [];
      } else {
        assert [s[..size]] + FullBlocks(s[size..], size) == FullBlocks(s, size);
      }
    }
  }

  lemma {:induction false} TotalSizeCons(c: OctetVector, cs: seq<OctetVector>)
    ensures TotalSize([c] + cs) == |c| + TotalSize(cs)
  {
    if cs == [] {
      assert [c] + cs == [c] && [c][..0] == [];
    } else {
      TotalSizeCons(c, cs[..|cs| - 1]);
      assert ([c] + cs)[..|cs|] == [c] + cs[..|cs| - 1];
    }
  }

  /** all chunks but the last are full, the last has at least one octet */
  ghost predicate Shaped(chunks: seq<OctetVector>, per: nat, last: nat) {
    && |chunks| > 0 && CHUNK_TAG_SIZE < last <= per
    && (forall i :: 0 <= i < |chunks| ==> |chunks[i]| == if i < |chunks| - 1 then per else last)
    && TotalSize(chunks) == (|chunks| - 1) * per + last
  }

  lemma {:induction false} ChunksShaped(k: ChunkCrypto, no: nat, s: OctetVector, size: nat) returns (last: nat)
    requires Laws(k) && size > 0 && |s| > 0
    ensures Shaped(Encrypted(k, no, Blocks(s, size)), size + CHUNK_TAG_SIZE, last)
    decreases |s|
  {
    BlocksNext(s, size);
    var per := size + CHUNK_TAG_SIZE;
    if |s| <= size {
      last := |s| + CHUNK_TAG_SIZE;
      var chunks := Encrypted(k, no, [s]);
      assert [s][1..] == [] && Encrypted(k, no + 1, []) == [];
      assert chunks == [k.encrypt(no, s)] && chunks[..0] == [];
      assert TotalSize(chunks) == 0 * per + last;
    } else {
      last := ChunksShaped(k, no + 1, s[size..], size);
      var rest := Encrypted(k, no + 1, Blocks(s[size..], size));
      var first := k.encrypt(no, s[..size]);
      assert Encrypted(k, no, Blocks(s, size)) == [first] + rest by {
        assert ([s[..size]] + Blocks(s[size..], size))[1..] == Blocks(s[size..], size);
      }
      TotalSizeCons(first, rest);
      assert |rest| * per == (|rest| - 1) * per + per;
    }
  }

  lemma ShapedDescribed(chunks: seq<OctetVector>, size: nat, last: nat)
    requires size > 0 && Shaped(chunks, size + CHUNK_TAG_SIZE, last)
    ensures var d := Descriptor(TotalSize(chunks), size);
            && d.ChunkCount() == |chunks|
            && forall i :: 0 <= i < |chunks| ==> d.ChunkEncSize(i) == |chunks[i]|
  {
    var d, n, per := Descriptor(TotalSize(chunks), size), |chunks|, size + CHUNK_TAG_SIZE;
    ChunkStarts(d, n - 1);
    ChunkStarts(d, n);
    assert n * per == (n - 1) * per + per;
    forall i | 0 <= i < n
      ensures d.ChunkEncSize(i) == |chunks[i]|
    {
      if i < n - 1 {
        MulMonotone(i + 1, n - 1, per);
        assert (i + 1) * per == i * per + per;
      }
    }
  }

  /** number and sizes of the chunks are what the descriptor says of them */
  lemma DescriptorAgrees(k: ChunkCrypto, size: nat, plain: OctetVector)
    requires Laws(k) && size > 0
    ensures var chunks := ChunksOf(k, size, plain);
            var d := Descriptor(TotalSize(chunks), size);
            && d.ChunkCount() == |chunks| == |Blocks(Padded(plain), size)|
            && forall i :: 0 <= i < |chunks| ==> d.ChunkEncSize(i) == |chunks[i]|
  {
    PaddedAtLeast(|plain|, MIN_PADDED_DATA_SIZE);
    var last := ChunksShaped(k, 0, Padded(plain), size);
    ShapedDescribed(ChunksOf(k, size, plain), size, last);
    EncryptedJoin(k, 0, Blocks(Padded(plain), size), []);
  }

  // ---------------------------------------------------------------- the decryptor

  function ChunkPlainSize(d: Descriptor, plainSize: nat, no: nat): nat {
    var start := no * d.chunkSize;
    if start < plainSize then (if plainSize - start < d.chunkSize then plainSize - start else d.chunkSize) else 0
  }

  function Decrypt(k: ChunkCrypto, d: Descriptor, plainSize: nat, no: nat,
                   encrypted: OctetVector): Option<OctetVector> {
    if no < d.ChunkCount() then
      var plain := k.decrypt(no, encrypted);
      if plain.Some? then
        var keep := ChunkPlainSize(d, plainSize, no);
        if |plain.value| < keep then None else Some(plain.value[..keep])
      else None
    else None
  }

  /** the chunks from the given number on, decrypted and put together; none when one of them does not decrypt */
  function DecryptFrom(k: ChunkCrypto, d: Descriptor, plainSize: nat, no: nat,
                       chunks: seq<OctetVector>): Option<OctetVector>
    decreases |chunks|
  {
    if chunks == [] then Some([])
    else
      var first, rest := Decrypt(k, d, plainSize, no, chunks[0]), DecryptFrom(k, d, plainSize, no + 1, chunks[1..]);
      if first.Some? && rest.Some? then Some(first.value + rest.value) else None
  }

  function From(s: OctetVector, start: nat): OctetVector {
    if start < |s| then s[start..] else []
  }

  lemma {:induction false} DecryptsFrom(k: ChunkCrypto, d: Descriptor, plain: OctetVector, padded: OctetVector,
                                        no: nat, start: nat)
    requires Laws(k) && d.chunkSize > 0 && start == no * d.chunkSize && start < |padded| && plain <= padded
    requires no + |Blocks(padded[start..], d.chunkSize)| <= d.ChunkCount()
    ensures DecryptFrom(k, d, |plain|, no, Encrypted(k, no, Blocks(padded[start..], d.chunkSize))) ==
            Some(From(plain, start))
    decreases |padded| - start
  {
    var s, size := padded[start..], d.chunkSize;
    BlocksNext(s, size);
    if |s| <= size {
      var chunk := k.encrypt(no, s);
      assert Encrypted(k, no, [s]) == [chunk];
      assert Decrypt(k, d, |plain|, no, chunk).value == From(plain, start);
      assert From(plain, start) + [] == From(plain, start);
    } else {
      var b, rest := s[..size], padded[start + size..];
      assert s[size..] == rest;
      assert (no + 1) * size == start + size;
      DecryptsFrom(k, d, plain, padded, no + 1, start + size);
      var chunk, later := k.encrypt(no, b), Encrypted(k, no + 1, Blocks(rest, size));
      assert Encrypted(k, no, Blocks(s, size)) == [chunk] + later by {
        assert ([b] + Blocks(rest, size))[1..] == Blocks(rest, size);
      }
      assert ([chunk] + later)[1..] == later;
      assert Decrypt(k, d, |plain|, no, chunk).value + From(plain, start + size) == From(plain, start);
    }
  }

  /** decrypting all chunks in order gives back exactly the plaintext, the padding gone */
  lemma RoundTrip(k: ChunkCrypto, size: nat, plain: OctetVector)
    requires Laws(k) && size > 0
    ensures var chunks := ChunksOf(k, size, plain);
            DecryptFrom(k, Descriptor(TotalSize(chunks), size), |plain|, 0, chunks) == Some(plain)
  {
    DescriptorAgrees(k, size, plain);
    PaddedAtLeast(|plain|, MIN_PADDED_DATA_SIZE);
    var padded, d := Padded(plain), Descriptor(TotalSize(ChunksOf(k, size, plain)), size);
    assert padded[0..] == padded;
    DecryptsFrom(k, d, plain, padded, 0, 0);
    assert From(plain, 0) == plain;
  }

  // ---------------------------------------------------------------- one chunk

  lemma {:induction false} BlockAt(s: OctetVector, size: nat, no: nat)
    requires size > 0 && no * size < |s|
    ensures no < |Blocks(s, size)|
    ensures Blocks(s, size)[no] == if (no + 1) * size < |s| then s[no * size..(no + 1) * size] else s[no * size..]
    decreases no
  {
    BlocksNext(s, size);
    if no > 0 {
      assert no * size == (no - 1) * size + size && (no + 1) * size == no * size + size;
      MulMonotone(1, no, size);
      BlockAt(s[size..], size, no - 1);
    }
  }

  lemma {:induction false} EncryptedAt(k: ChunkCrypto, no: nat, blocks: seq<OctetVector>, i: nat)
    requires i < |blocks|
    ensures i < |Encrypted(k, no, blocks)| && Encrypted(k, no, blocks)[i] == k.encrypt(no + i, blocks[i])
    decreases |blocks|
  {
    if i > 0 {
      EncryptedAt(k, no + 1, blocks[1..], i - 1);
    }
  }

  /** the plaintext of one chunk */
  function PlainChunk(plain: OctetVector, size: nat, no: nat): OctetVector
    requires no * size < |plain|
  {
    if (no + 1) * size < |plain| then
      assert no * size <= (no + 1) * size by { MulMonotone(no, no + 1, size); }
      plain[no * size..(no + 1) * size]
    else plain[no * size..]
  }

  /** the block of the padded plaintext, cut to what the chunk has of the plaintext */
  lemma BlockCut(plain: OctetVector, padded: OctetVector, size: nat, no: nat)
    requires size > 0 && no * size < |plain| && plain <= padded
    ensures no * size < |padded|
    ensures var block, keep := PlainChunk(padded, size, no), ChunkPlainSize(Descriptor(0, size), |plain|, no);
            keep <= |block| && block[..keep] == PlainChunk(plain, size, no)
  {
    var start := no * size;
    assert (no + 1) * size == start + size;
  }

  lemma EncryptedBlock(k: ChunkCrypto, size: nat, plain: OctetVector, no: nat)
    requires size > 0 && no * size < |plain|
    ensures no * size < |Padded(plain)| && no < |ChunksOf(k, size, plain)|
    ensures ChunksOf(k, size, plain)[no] == k.encrypt(no, PlainChunk(Padded(plain), size, no))
  {
    BlockAt(Padded(plain), size, no);
    EncryptedAt(k, 0, Blocks(Padded(plain), size), no);
  }

  /** each chunk that starts within the plaintext decrypts, by itself, to its slice of it */
  lemma DecryptsChunk(k: ChunkCrypto, size: nat, plain: OctetVector, no: nat)
    requires Laws(k) && size > 0 && no * size < |plain|
    ensures var chunks := ChunksOf(k, size, plain);
            && no < |chunks|
            && Decrypt(k, Descriptor(TotalSize(chunks), size), |plain|, no, chunks[no]) ==
               Some(PlainChunk(plain, size, no))
  {
    EncryptedBlock(k, size, plain, no);
    DescriptorAgrees(k, size, plain);
    BlockCut(plain, Padded(plain), size, no);
  }
}
