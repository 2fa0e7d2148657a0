/**
 * How an encrypted data divides into chunks (spsync/core/data/data_descriptor.cpp): every
 * chunk carries an AES-GCM tag, the last one may be short.
 */
module DataDescriptor {
  import opened Common

  const CHUNK_TAG_SIZE := 16

  datatype Descriptor = Descriptor(encSize: nat, chunkSize: nat) {

    function PerChunk(): nat {
      chunkSize + CHUNK_TAG_SIZE
    }

    function ChunkCount(): nat {
      if chunkSize == 0 then 0
      else encSize / PerChunk() + (if encSize % PerChunk() != 0 then 1 else 0)
    }

    function ChunkEncSize(no: nat): nat {
      if no < ChunkCount() then
        ChunkStarts(this, no);
        if PerChunk() < encSize - no * PerChunk() then PerChunk() else encSize - no * PerChunk()
      else 0
    }
  }

  /** the chunks a descriptor counts are the ones that start before its end */
  lemma ChunkStarts(d: Descriptor, no: nat)
    requires d.chunkSize != 0
    ensures no < d.ChunkCount() <==> no * d.PerChunk() < d.encSize
  {
    var p, q, r := d.PerChunk(), d.encSize / d.PerChunk(), d.encSize % d.PerChunk();
    assert d.encSize == q * p + r && 0 <= r < p;
    if no < q {
      MulMonotone(no + 1, q, p);
    } else if no > q {
      MulMonotone(q + 1, no, p);
    }
  }

  /** the encrypted size of the first n chunks */
  function SizeUpTo(d: Descriptor, n: nat): nat {
    if n == 0 then 0 else SizeUpTo(d, n - 1) + d.ChunkEncSize(n - 1)
  }

  lemma {:induction false} SizeUpToIs(d: Descriptor, n: nat)
    requires d.chunkSize != 0 && n <= d.ChunkCount()
    ensures SizeUpTo(d, n) == if n * d.PerChunk() <= d.encSize then n * d.PerChunk() else d.encSize
  {
    if n > 0 {
      SizeUpToIs(d, n - 1);
      ChunkStarts(d, n - 1);
      assert n * d.PerChunk() == (n - 1) * d.PerChunk() + d.PerChunk();
    }
  }

  /** the chunks make up the data, and none of them is empty */
  lemma ChunksSumToSize(d: Descriptor)
    requires d.chunkSize != 0
    ensures SizeUpTo(d, d.ChunkCount()) == d.encSize
    ensures forall no :: 0 <= no < d.ChunkCount() ==> d.ChunkEncSize(no) > 0
  {
    SizeUpToIs(d, d.ChunkCount());
    ChunkStarts(d, d.ChunkCount());
    forall no | 0 <= no < d.ChunkCount()
      ensures d.ChunkEncSize(no) > 0
    {
      ChunkStarts(d, no);
    }
  }
}
