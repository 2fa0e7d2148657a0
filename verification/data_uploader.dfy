/**
 * The queue that uploads (spsync/transfer/data_uploader.cpp): what the holder lacks goes, piece by
 * piece. In every state of every run the octets of an upload are accounted for, the pieces sent so
 * far are the beginning of a tiling of the chunks that go, and an upload ends well only when all of
 * it went.
 */
module DataUploader {
  import opened Common
  import opened PieceCursor
  import opened TransferQueue

  /** an opened upload: the cursor it opened with, and every piece sent since */
  datatype Track = Track(plan: Cursor, sent: seq<Piece>)

  /** the store starts datas it can upload, and no chunk is refused */
  ghost predicate Uploads(dir: Direction) {
    NeverRefuses(dir) && forall id :: dir.start(id).Some? ==> dir.start(id).value.chunkSize != 0
  }

  /** a plan of whole chunks of the data, each at most once */
  ghost predicate IsPlan(plan: Cursor) {
    plan.Proper() && plan.current.None? && plan.offset == 0
  }

  /** the pieces sent are the first ones of the plan, the cursor has the others; those on the way are among the sent */
  ghost predicate OnTrack(cfg: Config, t: Transfer, pieces: seq<Piece>, k: Track) {
    && IsPlan(k.plan) && t.cursor.Proper() && t.cursor.descriptor == k.plan.descriptor
    && AllPieces(k.plan, cfg.pieceSize) == k.sent + AllPieces(t.cursor, cfg.pieceSize)
    && multiset(pieces) <= multiset(k.sent)
  }

  ghost predicate Upload(cfg: Config, t: Transfer, pieces: seq<Piece>, tracks: map<Id, Track>, id: Id) {
    && t.cursor.descriptor.chunkSize != 0
    && (!t.open ==> t.cursor == Cursor(t.cursor.descriptor, [], None, 0))
    && (t.open ==> id in tracks && OnTrack(cfg, t, pieces, tracks[id]))
  }

  ghost predicate Tracked(cfg: Config, q: Queue, w: World, tracks: map<Id, Track>) {
    forall id :: id in q.active && id in w.flying ==> Upload(cfg, q.active[id], w.flying[id], tracks, id)
  }

  ghost predicate UploadInv(cfg: Config, q: Queue, w: World, tracks: map<Id, Track>) {
    Inv(cfg, q, w) && Conserved(q, w) && Tracked(cfg, q, w, tracks)
  }

  // ---------------------------------------------------------------- a round

  /** what was sent since, appended to the tracks of the uploads that go on */
  ghost function Longer(w: World, w': World, tracks: map<Id, Track>): map<Id, Track> {
    map id | id in tracks ::
      if id in w.flying && id in w'.flying && w.flying[id] <= w'.flying[id]
      then tracks[id].(sent := tracks[id].sent + w'.flying[id][|w.flying[id]|..]) else tracks[id]
  }

  lemma AdvancesOnTrack(cfg: Config, t: Transfer, ps: seq<Piece>, t': Transfer, ps': seq<Piece>, k: Track)
    requires OnTrack(cfg, t, ps, k) && Advanced(cfg, t, ps, t', ps')
    ensures OnTrack(cfg, t', ps', k.(sent := k.sent + ps'[|ps|..]))
  {
    var more := ps'[|ps|..];
    assert ps' == ps + more;
    var rest := AllPieces(t'.cursor, cfg.pieceSize);
    assert k.sent + (more + rest) == k.sent + more + rest;
  }

  lemma RoundTracked(cfg: Config, dir: Direction, q: Queue, w: World, q': Queue, w': World, tracks: map<Id, Track>)
    requires Tracked(cfg, q, w, tracks) && RoundDone(cfg, dir, q, w, q', w') && Uploads(dir)
    ensures Tracked(cfg, q', w', Longer(w, w', tracks))
  {
    forall id | id in q'.active && id in w'.flying
      ensures Upload(cfg, q'.active[id], w'.flying[id], Longer(w, w', tracks), id)
    {
      if id in q.active && id in w.flying {
        assert Upload(cfg, q.active[id], w.flying[id], tracks, id);
        if q.active[id].open {
          AdvancesOnTrack(cfg, q.active[id], w.flying[id], q'.active[id], w'.flying[id], tracks[id]);
        }
      }
    }
  }

  // ---------------------------------------------------------------- answers

  lemma OpensTracked(cfg: Config, q: Queue, w: World, tracks: map<Id, Track>, id: Id, chunks: seq<nat>, credit: nat,
                     m: Met)
    requires Tracked(cfg, q, w, tracks) && id in q.active && IsNew(q.active[id])
    requires Cursor(q.active[id].cursor.descriptor, chunks, None, 0).Proper()
    ensures var t := AfterOpening(q.active[id], Planned(chunks, credit, false));
            && IsPlan(t.cursor) && t.open
            && Tracked(cfg, Put(q, id, t), PutWorld(w, id, t, [], m), tracks[id := Track(t.cursor, [])])
  {
    var t := AfterOpening(q.active[id], Planned(chunks, credit, false));
    var plan := t.cursor;
    var tracks' := tracks[id := Track(plan, [])];
    assert q.active[id].cursor.pending + chunks == chunks;
    var q', w' := Put(q, id, t), PutWorld(w, id, t, [], m);
    forall j | j in q'.active && j in w'.flying
      ensures Upload(cfg, q'.active[j], w'.flying[j], tracks', j)
    {
      if j != id {
        assert Upload(cfg, q.active[j], w.flying[j], tracks, j);
      } else {
        assert [] + AllPieces(t.cursor, cfg.pieceSize) == AllPieces(plan, cfg.pieceSize);
      }
    }
  }

  lemma SameCursorTracked(cfg: Config, q: Queue, w: World, tracks: map<Id, Track>, id: Id, t: Transfer,
                          pieces: seq<Piece>, m: Met)
    requires Tracked(cfg, q, w, tracks) && id in q.active && id in w.flying
    requires t.cursor == q.active[id].cursor && t.open == q.active[id].open
    requires multiset(pieces) <= multiset(w.flying[id])
    ensures Tracked(cfg, Put(q, id, t), PutWorld(w, id, t, pieces, m), tracks)
  {
    var q', w' := Put(q, id, t), PutWorld(w, id, t, pieces, m);
    forall j | j in q'.active && j in w'.flying
      ensures Upload(cfg, q'.active[j], w'.flying[j], tracks, j)
    {
      assert Upload(cfg, q.active[j], w.flying[j], tracks, j);
    }
  }

  /** the upload ended well: every octet went or was there, and the pieces sent tile what was planned */
  ghost predicate WentWell(cfg: Config, t: Transfer, k: Track) {
    && t.transferred == t.cursor.descriptor.encSize
    && IsPlan(k.plan) && k.plan.descriptor == t.cursor.descriptor && k.sent == AllPieces(k.plan, cfg.pieceSize)
    && Contiguous(k.plan, k.sent) && Complete(k.plan, k.sent) && !Foreign(k.plan, k.sent)
  }

  lemma EndsWell(cfg: Config, t: Transfer, k: Track)
    requires Finished(t) && t.failure.None? && OnTrack(cfg, t, [], k) && t.transferred == t.cursor.descriptor.encSize
    ensures WentWell(cfg, t, k)
  {
    assert k.sent + [] == k.sent;
    PiecesTile(k.plan, cfg.pieceSize);
  }

  /** an upload that ended well, as it was */
  datatype Success = Success(id: Id, transfer: Transfer, track: Track)

  /** the upload that ended as the i-th met no error only if it is known how it went */
  ghost predicate Proven(cfg: Config, w: World, wins: map<nat, Success>) {
    forall i :: 0 <= i < |w.ended| && w.ended[i].met == Met([], false) ==>
                  && i in wins && wins[i].id == w.ended[i].id
                  && WentWell(cfg, wins[i].transfer, wins[i].track)
  }

  ghost function Wins(w: World, wins: map<nat, Success>, id: Id, t: Transfer, m: Met, tracks: map<Id, Track>)
    : map<nat, Success> {
    if Finished(t) && m == Met([], false) && id in tracks then wins[|w.ended| := Success(id, t, tracks[id])] else wins
  }

  lemma PutProven(cfg: Config, w: World, wins: map<nat, Success>, id: Id, t: Transfer, pieces: seq<Piece>, m: Met,
                  tracks: map<Id, Track>)
    requires Proven(cfg, w, wins)
    requires Finished(t) && m == Met([], false) ==> id in tracks && WentWell(cfg, t, tracks[id])
    ensures Proven(cfg, PutWorld(w, id, t, pieces, m), Wins(w, wins, id, t, m, tracks))
  {
  }

  lemma RoundProven(cfg: Config, w: World, w': World, wins: map<nat, Success>)
    requires Proven(cfg, w, wins) && OnlyFailures(w, w')
    ensures Proven(cfg, w', wins)
  {
  }

  /** a callback without an error is only made or owed for an upload that went as a whole */
  lemma SuccessWentWell(cfg: Config, q: Queue, w: World, wins: map<nat, Success>, i: nat)
    requires Inv(cfg, q, w) && Proven(cfg, w, wins) && i < |w.reported + q.owed|
    ensures var d := (w.reported + q.owed)[i];
            d.failure.None? ==>
              i in wins && wins[i].id == d.id && WentWell(cfg, wins[i].transfer, wins[i].track)
  {
    assert Tells((w.reported + q.owed)[i], w.ended[i]);
  }

  /** the answer that an opening becomes: the chunks to send, the others count as moved */
  function UploadPlan(plan: Cursor): OpenAnswer {
    var total := TotalOf(plan.descriptor, plan.pending);
    Planned(plan.pending, if total <= plan.descriptor.encSize then plan.descriptor.encSize - total else 0, false)
  }

  /** the upload opens with exactly the chunks the holder lacks; it may be over at once */
  ghost predicate OpensTo(cfg: Config, t: Transfer, k: Track, have: nat -> bool) {
    && k.sent == [] && IsPlan(k.plan) && k.plan.descriptor == t.cursor.descriptor
    && (forall no: nat :: no in k.plan.pending <==> no < k.plan.descriptor.ChunkCount() && !have(no))
    && TotalOf(k.plan.descriptor, k.plan.pending) <= k.plan.descriptor.encSize
    && var t' := AfterOpening(t, UploadPlan(k.plan));
       Finished(t') ==> WentWell(cfg, t', k)
  }

  /** what the answer to an opening does: the upload goes as planned, or it ends with the error */
  ghost predicate OpeningAnswered(cfg: Config, q: Queue, q': Queue, id: Id, have: Option<nat -> bool>, err: Error,
                                  tracks: map<Id, Track>) {
    && id in q.active
    && if have.None? then id !in q'.active && q' == Put(q, id, AfterOpening(q.active[id], NotOpened(err)))
       else && id in tracks && OpensTo(cfg, q.active[id], tracks[id], have.value)
            && q' == Put(q, id, AfterOpening(q.active[id], UploadPlan(tracks[id].plan)))
  }

  /** an upload with nothing to send is over as it opens, and went well */
  lemma OpensWell(cfg: Config, t: Transfer, chunks: seq<nat>, credit: nat)
    requires t.cursor == Cursor(t.cursor.descriptor, [], None, 0) && t.transferred == 0 && t.failure.None?
    requires Cursor(t.cursor.descriptor, chunks, None, 0).Proper()
    requires credit + TotalOf(t.cursor.descriptor, chunks) == t.cursor.descriptor.encSize
    ensures var t' := AfterOpening(t, Planned(chunks, credit, false));
            && t'.cursor == Cursor(t.cursor.descriptor, chunks, None, 0) && IsPlan(t'.cursor)
            && (Finished(t') ==> WentWell(cfg, t', Track(t'.cursor, [])))
  {
    var t' := AfterOpening(t, Planned(chunks, credit, false));
    assert [] + chunks == chunks;
    if Finished(t') {
      assert chunks == [] && TotalOf(t.cursor.descriptor, chunks) == 0;
      assert [] + AllPieces(t'.cursor, cfg.pieceSize) == AllPieces(t'.cursor, cfg.pieceSize);
      EndsWell(cfg, t', Track(t'.cursor, []));
    }
  }

  lemma WaitingIsNew(cfg: Config, q: Queue, w: World, tracks: map<Id, Track>, id: Id)
    requires UploadInv(cfg, q, w, tracks) && id in w.opening
    ensures id in q.active && id in w.flying && IsNew(q.active[id])
  {
    assert Upload(cfg, q.active[id], w.flying[id], tracks, id) && TransferOk(cfg, q.active[id]);
  }

  ghost predicate IsNew(t: Transfer) {
    t.cursor == Cursor(t.cursor.descriptor, [], None, 0) && t.cursor.descriptor.chunkSize != 0 && t.transferred == 0 &&
    t.failure.None?
  }

  lemma OpensAs(cfg: Config, t: Transfer, chunks: seq<nat>, credit: nat, have: nat -> bool)
    requires IsNew(t) && credit + TotalOf(t.cursor.descriptor, chunks) == t.cursor.descriptor.encSize
    requires Cursor(t.cursor.descriptor, chunks, None, 0).Proper()
    requires forall no: nat :: no in chunks <==> no < t.cursor.descriptor.ChunkCount() && !have(no)
    ensures var plan := Cursor(t.cursor.descriptor, chunks, None, 0);
            && UploadPlan(plan) == Planned(chunks, credit, false) && AfterOpening(t, UploadPlan(plan)).cursor == plan
            && OpensTo(cfg, t, Track(plan, []), have)
  {
    var plan := Cursor(t.cursor.descriptor, chunks, None, 0);
    assert UploadPlan(plan) == Planned(chunks, credit, false);
    OpensWell(cfg, t, chunks, credit);
  }

  /**
   * In every state of every run: the octets moved, on the way and still to go of an open upload without a
   * failure are its data; the pieces sent are a beginning of the tiling of its plan, each where its chunk is.
   */
  lemma UploadAccounted(cfg: Config, q: Queue, w: World, tracks: map<Id, Track>, id: Id)
    requires UploadInv(cfg, q, w, tracks) && id in q.active && q.active[id].open
    ensures id in w.flying && id in tracks && multiset(w.flying[id]) <= multiset(tracks[id].sent)
    ensures var t, k := q.active[id], tracks[id];
            && IsPlan(k.plan) && k.sent <= AllPieces(k.plan, cfg.pieceSize)
            && Contiguous(k.plan, k.sent) && SizesWithin(k.sent, cfg.pieceSize) && !Foreign(k.plan, k.sent)
            && (t.failure.None? ==>
                  t.transferred + Sizes(w.flying[id]) + t.cursor.Left() == t.cursor.descriptor.encSize)
  {
    assert Upload(cfg, q.active[id], w.flying[id], tracks, id);
    var k := tracks[id];
    PiecesTile(k.plan, cfg.pieceSize);
    BeginningTiles(k.plan, AllPieces(k.plan, cfg.pieceSize), k.sent, cfg.pieceSize);
  }

  lemma BeginningTiles(c: Cursor, ps: seq<Piece>, some: seq<Piece>, pieceSize: nat)
    requires some <= ps && Contiguous(c, ps) && SizesWithin(ps, pieceSize) && !Foreign(c, ps)
    ensures Contiguous(c, some) && SizesWithin(some, pieceSize) && !Foreign(c, some)
  {
    forall i | 0 <= i < |some|
      ensures Moves(c, some[i].chunk)
      ensures some[i].offset == StartOf(c, some[i].chunk) + ChunkTotal(some[..i], some[i].chunk)
    {
      assert some[i] == ps[i] && some[..i] == ps[..i];
    }
  }

  /** what the answer to a piece does: kept, ended with an error, or ended well after all of it went */
  ghost predicate PieceDone(cfg: Config, q: Queue, w: World, q': Queue, id: Id, a: PieceAnswer, tracks: map<Id, Track>,
                            wins: map<nat, Success>, wins': map<nat, Success>) {
    && id in q.active && q.active[id].outstanding > 0 && id in w.met
    && var t := AfterPiece(q.active[id], a);
       && q' == Put(q, id, t) && wins' == Wins(w, wins, id, t, PieceMeets(w.met[id], a), tracks)
       && (id !in q'.active && t.failure.None? ==> id in tracks && WentWell(cfg, t, tracks[id]))
  }

  lemma SentProven(cfg: Config, q: Queue, w: World, tracks: map<Id, Track>, wins: map<nat, Success>, id: Id,
                   piece: Piece, i: nat, err: Option<Error>) returns (wins': map<nat, Success>)
    requires UploadInv(cfg, q, w, tracks) && Proven(cfg, w, wins)
    requires id in w.flying && i < |w.flying[id]| && w.flying[id][i] == piece
    ensures id in q.active && q.active[id].outstanding > 0 && id in w.met
    ensures var a := PieceSent(piece, err);
            var t, pieces := AfterPiece(q.active[id], a), w.flying[id][..i] + w.flying[id][i + 1..];
            var q', w' := Put(q, id, t), PutWorld(w, id, t, pieces, PieceMeets(w.met[id], a));
            && UploadInv(cfg, q', w', tracks) && Proven(cfg, w', wins')
            && PieceDone(cfg, q, w, q', id, a, tracks, wins, wins')
  {
    var a := PieceSent(piece, err);
    PieceKeeps(cfg, q, w, id, i, a);
    SentTracked(cfg, q, w, tracks, id, piece, i, err);
    var t, m := AfterPiece(q.active[id], a), PieceMeets(w.met[id], a);
    PutProven(cfg, w, wins, id, t, w.flying[id][..i] + w.flying[id][i + 1..], m, tracks);
    wins' := Wins(w, wins, id, t, m, tracks);
  }

  lemma PlannedProven(cfg: Config, q: Queue, w: World, tracks: map<Id, Track>, wins: map<nat, Success>, id: Id,
                      chunks: seq<nat>, credit: nat, have: nat -> bool, err: Error)
    returns (tracks': map<Id, Track>, wins': map<nat, Success>)
    requires UploadInv(cfg, q, w, tracks) && Proven(cfg, w, wins) && id in w.opening && id in q.active
    requires IsNew(q.active[id])
    requires credit + TotalOf(q.active[id].cursor.descriptor, chunks) == q.active[id].cursor.descriptor.encSize
    requires Cursor(q.active[id].cursor.descriptor, chunks, None, 0).Proper()
    requires forall no: nat :: no in chunks <==> no < q.active[id].cursor.descriptor.ChunkCount() && !have(no)
    ensures id in w.met
    ensures var a := Planned(chunks, credit, false);
            var t := AfterOpening(q.active[id], a);
            var q', w' := Put(q, id, t), PutWorld(w, id, t, [], OpeningMeets(w.met[id], a));
            && UploadInv(cfg, q', w', tracks') && Proven(cfg, w', wins')
            && OpeningAnswered(cfg, q, q', id, Some(have), err, tracks')
  {
    var a := Planned(chunks, credit, false);
    OpeningKeeps(cfg, q, w, id, a);
    var t, m := AfterOpening(q.active[id], a), OpeningMeets(w.met[id], a);
    UploadOpens(cfg, q, w, id, chunks, credit, m);
    OpensTracked(cfg, q, w, tracks, id, chunks, credit, m);
    OpensAs(cfg, q.active[id], chunks, credit, have);
    tracks' := tracks[id := Track(t.cursor, [])];
    PutProven(cfg, w, wins, id, t, [], m, tracks');
    wins' := Wins(w, wins, id, t, m, tracks');
  }

  function PieceSent(piece: Piece, err: Option<Error>): PieceAnswer {
    if err.Some? then Refused(err.value) else Taken(piece.size)
  }

  lemma WithoutOne(ps: seq<Piece>, i: nat)
    requires i < |ps|
    ensures multiset(ps[..i] + ps[i + 1..]) <= multiset(ps)
  {
    assert ps == ps[..i] + [ps[i]] + ps[i + 1..];
  }

  lemma SentTracked(cfg: Config, q: Queue, w: World, tracks: map<Id, Track>, id: Id, piece: Piece, i: nat,
                    err: Option<Error>)
    requires UploadInv(cfg, q, w, tracks)
    requires id in w.flying && i < |w.flying[id]| && w.flying[id][i] == piece
    ensures id in q.active && q.active[id].outstanding > 0 && id in w.met
    ensures var t, pieces := AfterPiece(q.active[id], PieceSent(piece, err)), w.flying[id][..i] + w.flying[id][i + 1..];
            var m := PieceMeets(w.met[id], PieceSent(piece, err));
            && Conserved(Put(q, id, t), PutWorld(w, id, t, pieces, m))
            && Tracked(cfg, Put(q, id, t), PutWorld(w, id, t, pieces, m), tracks)
            && Remembers(t, m)
            && (Finished(t) && t.failure.None? ==> id in tracks && WentWell(cfg, t, tracks[id]))
  {
    var t, pieces := AfterPiece(q.active[id], PieceSent(piece, err)), w.flying[id][..i] + w.flying[id][i + 1..];
    assert Upload(cfg, q.active[id], w.flying[id], tracks, id) && TransferOk(cfg, q.active[id]);
    var m := PieceMeets(w.met[id], PieceSent(piece, err));
    UploadMoves(cfg, q, w, id, i, PieceSent(piece, err), m);
    WithoutOne(w.flying[id], i);
    SameCursorTracked(cfg, q, w, tracks, id, t, pieces, m);
    if Finished(t) && t.failure.None? {
      assert pieces == [];
      EndsWell(cfg, t, tracks[id]);
    }
    PieceRemembered(q.active[id], w.met[id], PieceSent(piece, err));
  }

  lemma FailedOpening(cfg: Config, q: Queue, w: World, tracks: map<Id, Track>, wins: map<nat, Success>, id: Id,
                      e: Error)
    requires UploadInv(cfg, q, w, tracks) && Proven(cfg, w, wins)
    requires id in w.opening && id in q.active && id in w.flying
    ensures id in w.met
    ensures var t, m := AfterOpening(q.active[id], NotOpened(e)), OpeningMeets(w.met[id], NotOpened(e));
            && Finished(t) && Conserved(Put(q, id, t), PutWorld(w, id, t, [], m))
            && Tracked(cfg, Put(q, id, t), PutWorld(w, id, t, [], m), tracks)
            && Proven(cfg, PutWorld(w, id, t, [], m), wins)
  {
    var t, m := AfterOpening(q.active[id], NotOpened(e)), OpeningMeets(w.met[id], NotOpened(e));
    assert TransferOk(cfg, q.active[id]);
    PutConserves(q, w, id, t, [], m);
    SameCursorTracked(cfg, q, w, tracks, id, t, [], m);
    PutProven(cfg, w, wins, id, t, [], m, tracks);
  }

  // ---------------------------------------------------------------- the uploader

  method UploadRound(cfg: Config, q: Queue, ghost w: World, ghost tracks: map<Id, Track>,
                     ghost wins: map<nat, Success>, dir: Direction)
    returns (q': Queue, ghost w': World)
    requires UploadInv(cfg, q, w, tracks) && Proven(cfg, w, wins) && Uploads(dir)
    ensures UploadInv(cfg, q', w', Longer(w, w', tracks)) && Proven(cfg, w', wins)
    ensures Served(cfg, dir, q, w, q', w') && q'.owed == []
  {
    q', w' := Collect(cfg, q, w, dir);
    RoundTracked(cfg, dir, q, w, q', w', tracks);
    RoundProven(cfg, w, w', wins);
  }

  lemma StillTracked(cfg: Config, q: Queue, w: World, q': Queue, w': World, tracks: map<Id, Track>)
    requires Conserved(q, w) && Tracked(cfg, q, w, tracks) && q'.active == q.active && w'.flying == w.flying
    ensures Conserved(q', w') && Tracked(cfg, q', w', tracks)
  {
  }

  method EnqueueUpload(cfg: Config, q: Queue, ghost w: World, ghost tracks: map<Id, Track>,
                       ghost wins: map<nat, Success>, id: Id)
    returns (added: bool, q': Queue, ghost w': World)
    requires UploadInv(cfg, q, w, tracks) && Proven(cfg, w, wins)
    ensures UploadInv(cfg, q', w', tracks) && Proven(cfg, w', wins)
    ensures added <==> id !in q.active && id !in q.queue
    ensures q' == if added then q.(queue := q.queue + [id]) else q
  {
    added, q', w' := Enqueue(cfg, q, w, id);
    StillTracked(cfg, q, w, q', w', tracks);
    RoundProven(cfg, w, w', wins);
  }

  method OpenUpload(cfg: Config, q: Queue, ghost w: World, ghost tracks: map<Id, Track>,
                    ghost wins: map<nat, Success>, answered: nat, id: Id, have: Option<nat -> bool>, err: Error)
    returns (q': Queue, ghost w': World, ghost tracks': map<Id, Track>, ghost wins': map<nat, Success>)
    requires UploadInv(cfg, q, w, tracks) && Proven(cfg, w, wins) && (answered == q.generation ==> id in w.opening)
    ensures UploadInv(cfg, q', w', tracks') && Proven(cfg, w', wins')
    ensures answered != q.generation ==> q' == q && tracks' == tracks && wins' == wins
    ensures answered == q.generation ==> OpeningAnswered(cfg, q, q', id, have, err, tracks')
  {
    q', w', tracks', wins' := q, w, tracks, wins;
    if answered == q.generation {
      WaitingIsNew(cfg, q, w, tracks, id);
      if have.None? {
        FailedOpening(cfg, q, w, tracks, wins, id, err);
        q', w' := Opened(cfg, q, w, answered, id, NotOpened(err));
      } else {
        var chunks, credit := PlanUpload(q.active[id].cursor.descriptor, have.value);
        tracks', wins' := PlannedProven(cfg, q, w, tracks, wins, id, chunks, credit, have.value, err);
        q', w' := Opened(cfg, q, w, answered, id, Planned(chunks, credit, false));
      }
    }
  }

  method SendUpload(cfg: Config, q: Queue, ghost w: World, ghost tracks: map<Id, Track>,
                    ghost wins: map<nat, Success>, answered: nat, id: Id, piece: Piece, ghost i: nat,
                    err: Option<Error>)
    returns (q': Queue, ghost w': World, ghost wins': map<nat, Success>)
    requires UploadInv(cfg, q, w, tracks) && Proven(cfg, w, wins)
    requires answered == q.generation ==> id in w.flying && i < |w.flying[id]| && w.flying[id][i] == piece
    ensures UploadInv(cfg, q', w', tracks) && Proven(cfg, w', wins')
    ensures answered != q.generation ==> q' == q && wins' == wins
    ensures answered == q.generation ==> PieceDone(cfg, q, w, q', id, PieceSent(piece, err), tracks, wins, wins')
  {
    q', w', wins' := q, w, wins;
    if answered == q.generation {
      wins' := SentProven(cfg, q, w, tracks, wins, id, piece, i, err);
      q', w' := PieceAnswered(cfg, q, w, answered, id, i, PieceSent(piece, err));
    }
  }

  /** the uploader is a transfer queue: the value of one, with what is known of its uploads */
  class Uploader {
    const cfg: Config
    var queue: Queue
    ghost var world: World
    ghost var tracks: map<Id, Track>
    ghost var wins: map<nat, Success>

    ghost predicate Valid()
      reads this
    {
      UploadInv(cfg, queue, world, tracks) && Proven(cfg, world, wins)
    }

    constructor (cfg: Config)
      ensures Valid() && this.cfg == cfg && queue == Queue([], map[], [], 0) && world == NoWorld
    {
      this.cfg, queue := cfg, Queue([], map[], [], 0);
      world, tracks, wins := NoWorld, map[], map[];
    }

    method Take(q: Queue, ghost w: World, ghost ks: map<Id, Track>, ghost ss: map<nat, Success>)
      requires UploadInv(cfg, q, w, ks) && Proven(cfg, w, ss)
      modifies this
      ensures Valid() && queue == q && world == w && tracks == ks && wins == ss
    {
      queue, world, tracks, wins := q, w, ks, ss;
    }

    method Enqueue(id: Id) returns (added: bool)
      requires Valid()
      modifies this
      ensures Valid() && tracks == old(tracks) && wins == old(wins)
      ensures added <==> id !in old(queue).active && id !in old(queue).queue
      ensures queue == if added then old(queue).(queue := old(queue).queue + [id]) else old(queue)
    {
      var q;
      ghost var w;
      added, q, w := EnqueueUpload(cfg, queue, world, tracks, wins, id);
      Take(q, w, tracks, wins);
    }

    method Reset()
      requires Valid()
      modifies this
      ensures Valid() && queue == Queue([], map[], [], old(queue).generation + 1) && world == NoWorld
    {
      queue, world := TransferQueue.Reset(cfg, queue);
      tracks, wins := map[], map[];
    }

    /** no upload under way ends in a round; what is sent follows on what was sent before */
    method Round(dir: Direction)
      requires Valid() && Uploads(dir)
      modifies this
      ensures Valid() && queue.owed == [] && wins == old(wins)
      ensures Served(cfg, dir, old(queue), old(world), queue, world)
      ensures tracks == Longer(old(world), world, old(tracks))
    {
      var q;
      ghost var w;
      q, w := UploadRound(cfg, queue, world, tracks, wins, dir);
      Take(q, w, Longer(world, w, tracks), wins);
    }

    /** the holder says what it has: the rest is planned, and together they are the whole data */
    method OnOpened(answered: nat, id: Id, have: Option<nat -> bool>, err: Error)
      requires Valid() && (answered == queue.generation ==> id in world.opening)
      modifies this
      ensures Valid()
      ensures answered != old(queue).generation ==> queue == old(queue) && tracks == old(tracks) && wins == old(wins)
      ensures answered == old(queue).generation ==>
                OpeningAnswered(cfg, old(queue), queue, id, have, err, tracks)
    {
      var q;
      ghost var w, ks, ss;
      q, w, ks, ss := OpenUpload(cfg, queue, world, tracks, wins, answered, id, have, err);
      Take(q, w, ks, ss);
    }

    /** a piece went or was refused; an upload that ends without a failure went as a whole, tile by tile */
    method OnPieceSent(answered: nat, id: Id, piece: Piece, ghost i: nat, err: Option<Error>)
      requires Valid()
      requires answered == queue.generation ==>
                 id in world.flying && i < |world.flying[id]| && world.flying[id][i] == piece
      modifies this
      ensures Valid() && tracks == old(tracks)
      ensures answered != old(queue).generation ==> queue == old(queue) && wins == old(wins)
      ensures answered == old(queue).generation ==>
                PieceDone(cfg, old(queue), old(world), queue, id, PieceSent(piece, err), tracks, old(wins), wins)
    {
      var q;
      ghost var w, ss;
      q, w, ss := SendUpload(cfg, queue, world, tracks, wins, answered, id, piece, i, err);
      Take(q, w, tracks, ss);
    }
  }
}
