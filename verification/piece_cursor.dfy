/**
 * Where the transfer of a data is, piece by piece (spsync/transfer/piece_cursor.cpp). The
 * cursor is a value: what it hands out tiles every chunk to move, in order, from offset 0.
 */
module PieceCursor {
  import opened Common
  import opened DataDescriptor

  datatype Piece = Piece(chunk: nat, offset: nat, size: nat)

  function Min(a: nat, b: nat): nat {
    if a < b then a else b
  }

  datatype Cursor = Cursor(descriptor: Descriptor, pending: seq<nat>, current: Option<nat>, offset: nat) {

    predicate Done() {
      pending == [] && current.None?
    }

    function StartingChunk(): Option<nat> {
      if current.None? && pending != [] then Some(pending[0]) else None
    }

    predicate Valid() {
      current.Some? ==> offset < descriptor.ChunkEncSize(current.value)
    }

    /** the chunks are the data's own, each at most once */
    ghost predicate Proper() {
      && Valid()
      && (forall i :: 0 <= i < |pending| ==> descriptor.ChunkEncSize(pending[i]) > 0)
      && (forall i, j :: 0 <= i < j < |pending| ==> pending[i] != pending[j])
      && (current.Some? ==> current.value !in pending)
    }

    /** the next piece, and the cursor past it; the cursor moves on to a pending chunk when it has none */
    function Next(pieceSize: nat): (r: (Option<Piece>, Cursor))
      requires Valid()
      ensures r.1.Valid()
    {
      var c := if current.None? && pending != [] then Cursor(descriptor, pending[1..], Some(pending[0]), 0) else this;
      if c.current.None? then (None, c)
      else
        var chunk := descriptor.ChunkEncSize(c.current.value);
        var size := Min(if pieceSize < 1 then 1 else pieceSize, chunk - c.offset);
        (Some(Piece(c.current.value, c.offset, size)),
         if c.offset + size >= chunk then c.(current := None, offset := c.offset + size)
         else c.(offset := c.offset + size))
    }

    /** octets not handed out yet */
    function Left(): nat
      requires Valid()
    {
      (if current.Some? then descriptor.ChunkEncSize(current.value) - offset else 0) + TotalOf(descriptor, pending)
    }
  }

  function TotalOf(d: Descriptor, nos: seq<nat>): nat {
    if nos == [] then 0 else d.ChunkEncSize(nos[0]) + TotalOf(d, nos[1..])
  }

  /** what a piece takes is what the cursor has less to hand out */
  lemma NextConserves(c: Cursor, pieceSize: nat)
    requires c.Valid()
    ensures var (piece, c') := c.Next(pieceSize);
            && (piece.None? <==> c.Done())
            && c'.descriptor == c.descriptor
            && (piece.Some? ==> c'.Left() + piece.value.size == c.Left())
            && (piece.None? ==> c'.Left() == c.Left() == 0)
  {
  }

  lemma {:induction false} TotalOfAppended(d: Descriptor, nos: seq<nat>, no: nat)
    ensures TotalOf(d, nos + [no]) == TotalOf(d, nos) + d.ChunkEncSize(no)
  {
    if nos != [] {
      TotalOfAppended(d, nos[1..], no);
      assert (nos + [no])[1..] == nos[1..] + [no];
    }
  }

  // ---------------------------------------------------------------- the pieces tile the chunks

  lemma NextProper(c: Cursor, pieceSize: nat)
    requires c.Proper() && !c.Done()
    ensures var (piece, c') := c.Next(pieceSize);
            piece.Some? && piece.value.size > 0 && c'.Proper() && c'.Left() < c.Left()
  {
    NextConserves(c, pieceSize);
  }

  /** everything the cursor hands out until it is done */
  ghost function AllPieces(c: Cursor, pieceSize: nat): seq<Piece>
    requires c.Proper()
    decreases c.Left()
  {
    if c.Done() then []
    else
      NextProper(c, pieceSize);
      var (piece, c') := c.Next(pieceSize);
      [piece.value] + AllPieces(c', pieceSize)
  }

  /** octets of the chunk in the pieces */
  function ChunkTotal(ps: seq<Piece>, no: nat): nat {
    if ps == [] then 0 else ChunkTotal(ps[..|ps| - 1], no) + if ps[|ps| - 1].chunk == no then ps[|ps| - 1].size else 0
  }

  lemma {:induction false} ChunkTotalCons(p: Piece, ps: seq<Piece>, no: nat)
    ensures ChunkTotal([p] + ps, no) == (if p.chunk == no then p.size else 0) + ChunkTotal(ps, no)
  {
    if ps == [] {
      assert [p] + ps == [p] && [p][..0] == [];
    } else {
      ChunkTotalCons(p, ps[..|ps| - 1], no);
      assert ([p] + ps)[..|ps|] == [p] + ps[..|ps| - 1];
    }
  }

  /** the offset at which the cursor goes on with the chunk */
  ghost function StartOf(c: Cursor, no: nat): nat {
    if c.current == Some(no) then c.offset else 0
  }

  ghost predicate Moves(c: Cursor, no: nat) {
    c.current == Some(no) || no in c.pending
  }

  /** every piece begins where the pieces of its chunk before it end */
  ghost predicate Contiguous(c: Cursor, ps: seq<Piece>) {
    forall i :: 0 <= i < |ps| ==> ps[i].offset == StartOf(c, ps[i].chunk) + ChunkTotal(ps[..i], ps[i].chunk)
  }

  ghost predicate SizesWithin(ps: seq<Piece>, pieceSize: nat) {
    forall i :: 0 <= i < |ps| ==> 1 <= ps[i].size <= if pieceSize < 1 then 1 else pieceSize
  }

  /** and together they are the rest of every chunk the cursor moves */
  ghost predicate Complete(c: Cursor, ps: seq<Piece>) {
    forall no: nat :: StartOf(c, no) + ChunkTotal(ps, no) == if Moves(c, no) then c.descriptor.ChunkEncSize(no)
                                                             else StartOf(c, no)
  }

  ghost predicate Foreign(c: Cursor, ps: seq<Piece>) {
    exists i :: 0 <= i < |ps| && !Moves(c, ps[i].chunk)
  }

  /** one step: the piece goes on where its chunk is, the other chunks stay where they are */
  ghost predicate StepFacts(c: Cursor, p: Piece, c': Cursor) {
    && c'.descriptor == c.descriptor
    && Moves(c, p.chunk) && p.offset == StartOf(c, p.chunk)
    && (forall no: nat :: no != p.chunk ==> StartOf(c', no) == StartOf(c, no) && (Moves(c', no) <==> Moves(c, no)))
    && if Moves(c', p.chunk) then StartOf(c', p.chunk) == p.offset + p.size
       else p.offset + p.size == c.descriptor.ChunkEncSize(p.chunk)
  }

  lemma NextFacts(c: Cursor, pieceSize: nat)
    requires c.Proper() && !c.Done()
    ensures var (piece, c') := c.Next(pieceSize);
            && piece.Some? && StepFacts(c, piece.value, c')
            && 1 <= piece.value.size <= if pieceSize < 1 then 1 else pieceSize
  {
    var (piece, c') := c.Next(pieceSize);
    NextProper(c, pieceSize);
    if c.current.None? {
      assert c.pending == [c.pending[0]] + c.pending[1..];
    }
  }

  lemma {:induction false} PiecesTile(c: Cursor, pieceSize: nat)
    requires c.Proper()
    ensures var ps := AllPieces(c, pieceSize);
            Contiguous(c, ps) && Complete(c, ps) && SizesWithin(ps, pieceSize) && !Foreign(c, ps)
    decreases c.Left()
  {
    if !c.Done() {
      NextProper(c, pieceSize);
      NextFacts(c, pieceSize);
      var (piece, c') := c.Next(pieceSize);
      var p, rest := piece.value, AllPieces(c', pieceSize);
      PiecesTile(c', pieceSize);
      CompleteStep(c, p, c', rest);
      ContiguousStep(c, p, c', rest);
    }
  }

  lemma CompleteStep(c: Cursor, p: Piece, c': Cursor, rest: seq<Piece>)
    requires StepFacts(c, p, c') && Complete(c', rest)
    ensures Complete(c, [p] + rest)
  {
    forall no: nat
      ensures StartOf(c, no) + ChunkTotal([p] + rest, no) ==
              if Moves(c, no) then c.descriptor.ChunkEncSize(no) else StartOf(c, no)
    {
      ChunkTotalCons(p, rest, no);
      assert StartOf(c', no) + ChunkTotal(rest, no) == if Moves(c', no) then c.descriptor.ChunkEncSize(no)
                                                       else StartOf(c', no);
    }
  }

  lemma ContiguousStep(c: Cursor, p: Piece, c': Cursor, rest: seq<Piece>)
    requires StepFacts(c, p, c') && Contiguous(c', rest) && !Foreign(c', rest)
    ensures Contiguous(c, [p] + rest) && !Foreign(c, [p] + rest)
  {
    var ps := [p] + rest;
    forall i | 0 <= i < |ps|
      ensures Moves(c, ps[i].chunk) && ps[i].offset == StartOf(c, ps[i].chunk) + ChunkTotal(ps[..i], ps[i].chunk)
    {
      if i > 0 {
        assert rest[i - 1] == ps[i] && Moves(c', rest[i - 1].chunk);
        assert ps[..i] == [p] + rest[..i - 1];
        ChunkTotalCons(p, rest[..i - 1], ps[i].chunk);
      }
    }
  }
}
