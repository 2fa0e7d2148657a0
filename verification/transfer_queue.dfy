/**
 * The queue that moves datas to or from a holder, a few at a time, each in pieces with a window
 * of them on the way (spsync/transfer/transfer_queue.hpp). Every interleaving of enqueues,
 * rounds, resets and answers is a run of these operations.
 */
module TransferQueue {
  import opened Common
  import opened Octets
  import opened DataDescriptor
  import opened PieceCursor

  type Id = OctetVector

  type Error = nat

  datatype Config = Config(maxDatas: nat, window: nat, pieceSize: nat)

  /** one data on its way; incomplete says that the holder lacks chunks that are missing here too */
  datatype Transfer = Transfer(cursor: Cursor, failure: Option<Error>, outstanding: nat, transferred: nat, open: bool,
                               incomplete: bool)

  const DATA_NOT_HELD: Error := 1

  /** what a transfer ends with */
  function OutcomeOf(t: Transfer): Option<Error> {
    if t.failure.None? && t.incomplete then Some(DATA_NOT_HELD) else t.failure
  }

  /** a done callback: the data, and what stopped it if something did */
  datatype Done = Done(id: Id, failure: Option<Error>)

  datatype Queue = Queue(queue: seq<Id>, active: map<Id, Transfer>, owed: seq<Done>, generation: nat)

  /** what a data met on its way: the errors in the order they came, and whether the holder lacks chunks of it */
  datatype Met = Met(errors: seq<Error>, lacking: bool)

  datatype Ended = Ended(id: Id, met: Met)

  /**
   * What the world around the queue knows of the current generation: the openings and pieces
   * without an answer, the ids accepted and started, what was reported done so far, what the
   * active datas met, and the datas that ended with what they had met.
   */
  datatype World = World(opening: set<Id>, flying: map<Id, seq<Piece>>, accepted: seq<Id>, started: seq<Id>,
                         reported: seq<Done>, met: map<Id, Met>, ended: seq<Ended>)

  /** what the store says during a round: whether a data can start, whether a chunk can begin */
  datatype Direction = Direction(start: Id -> Option<Descriptor>, refuses: (Id, nat) -> Option<Error>, refusal: Error)

  // ---------------------------------------------------------------- what always holds

  predicate Finished(t: Transfer) {
    t.outstanding == 0 && (t.failure.Some? || (t.open && t.cursor.Done()))
  }

  ghost predicate TransferOk(cfg: Config, t: Transfer) {
    && t.cursor.Valid() && t.outstanding <= cfg.window
    && (!t.open ==> t.failure.None? && t.outstanding == 0 && t.cursor.Done() && t.transferred == 0)
  }

  ghost predicate Distinct(ids: seq<Id>) {
    forall i, j :: 0 <= i < j < |ids| ==> ids[i] != ids[j]
  }

  ghost predicate QueueOk(cfg: Config, q: Queue) {
    && |q.active| <= cfg.maxDatas
    && Distinct(q.queue) && (forall id :: id in q.queue ==> id !in q.active)
    && (forall id :: id in q.active ==> TransferOk(cfg, q.active[id]))
  }

  /** nothing is left to end: an ended transfer leaves the moment it ends */
  ghost predicate NoneFinished(q: Queue) {
    forall id :: id in q.active ==> !Finished(q.active[id])
  }

  /** the unanswered calls of the generation are exactly those the active transfers wait for */
  ghost predicate CallsMatch(q: Queue, w: World) {
    && (forall id :: id in w.opening <==> id in q.active && !q.active[id].open)
    && w.flying.Keys == q.active.Keys
    && (forall id :: id in q.active ==> |w.flying[id]| == q.active[id].outstanding)
  }

  function Ids(ds: seq<Done>): seq<Id> {
    seq(|ds|, i requires 0 <= i < |ds| => ds[i].id)
  }

  function One(b: bool): nat {
    if b then 1 else 0
  }

  /** every started data is active, owed its done callback or reported: once, and only once */
  ghost predicate Accounted(q: Queue, w: World) {
    && w.accepted == w.started + q.queue
    && forall id :: multiset(w.started)[id] ==
                    One(id in q.active) + multiset(Ids(q.owed))[id] + multiset(Ids(w.reported))[id]
  }

  /** a done callback says what came first, or that the holder lacks chunks, or nothing */
  ghost predicate Tells(d: Done, e: Ended) {
    && d.id == e.id
    && d.failure == if e.met.errors != [] then Some(e.met.errors[0]) else if e.met.lacking then Some(DATA_NOT_HELD)
                    else None
  }

  ghost predicate AllTell(ds: seq<Done>, es: seq<Ended>) {
    |ds| == |es| && forall i :: 0 <= i < |es| ==> Tells(ds[i], es[i])
  }

  /** the transfer has kept what matters of what the data met */
  ghost predicate Remembers(t: Transfer, m: Met) {
    t.failure == (if m.errors == [] then None else Some(m.errors[0])) && t.incomplete == m.lacking
  }

  ghost predicate AllRemember(q: Queue, w: World) {
    w.met.Keys == q.active.Keys && forall id :: id in q.active ==> Remembers(q.active[id], w.met[id])
  }

  /** the callbacks made and owed are those of the datas that ended, in order, and each tells how its data ended */
  ghost predicate Honest(q: Queue, w: World) {
    AllRemember(q, w) && AllTell(w.reported + q.owed, w.ended)
  }

  ghost predicate Inv(cfg: Config, q: Queue, w: World) {
    QueueOk(cfg, q) && NoneFinished(q) && CallsMatch(q, w) && Accounted(q, w) && Honest(q, w)
  }

  function Sizes(ps: seq<Piece>): nat {
    if ps == [] then 0 else Sizes(ps[..|ps| - 1]) + ps[|ps| - 1].size
  }

  /** octets moved, on the way and not handed out yet are the octets of the data */
  ghost predicate Balanced(t: Transfer, pieces: seq<Piece>) {
    t.cursor.Valid() && (t.open && t.failure.None? ==>
                           t.transferred + Sizes(pieces) + t.cursor.Left() == t.cursor.descriptor.encSize)
  }

  ghost predicate Conserved(q: Queue, w: World) {
    forall id :: id in q.active && id in w.flying ==> Balanced(q.active[id], w.flying[id])
  }

  // ---------------------------------------------------------------- queueing and forgetting

  lemma Queues(cfg: Config, q: Queue, id: Id)
    requires QueueOk(cfg, q) && id !in q.active && id !in q.queue
    ensures QueueOk(cfg, q.(queue := q.queue + [id]))
  {
  }

  lemma Accepts(q: Queue, w: World, id: Id)
    requires Accounted(q, w)
    ensures Accounted(q.(queue := q.queue + [id]), w.(accepted := w.accepted + [id]))
  {
  }

  method Enqueue(cfg: Config, q: Queue, ghost w: World, id: Id) returns (added: bool, q': Queue, ghost w': World)
    requires Inv(cfg, q, w)
    ensures Inv(cfg, q', w')
    ensures added <==> id !in q.active && id !in q.queue
    ensures q' == if added then q.(queue := q.queue + [id]) else q
    ensures w' == if added then w.(accepted := w.accepted + [id]) else w
  {
    added := id !in q.active && id !in q.queue;
    q', w' := q, w;
    if added {
      Queues(cfg, q, id);
      Accepts(q, w, id);
      q', w' := q.(queue := q.queue + [id]), w.(accepted := w.accepted + [id]);
    }
  }

  const NoWorld := World({}, map[], [], [], [], map[], [])

  /** everything is forgotten; the calls without an answer belong to an older generation from now on */
  method Reset(cfg: Config, q: Queue) returns (q': Queue, ghost w': World)
    ensures q' == Queue([], map[], [], q.generation + 1) && w' == NoWorld
    ensures Inv(cfg, q', w')
  {
    q', w' := Queue([], map[], [], q.generation + 1), NoWorld;
  }

  // ---------------------------------------------------------------- a round

  lemma OwedMore(owed: seq<Done>, d: Done)
    ensures multiset(Ids(owed + [d])) == multiset(Ids(owed)) + multiset{d.id}
  {
    assert Ids(owed + [d]) == Ids(owed) + [d.id];
  }

  ghost predicate RoundInv(cfg: Config, q: Queue, w: World) {
    QueueOk(cfg, q) && CallsMatch(q, w) && Accounted(q, w) && Honest(q, w)
  }

  lemma OneMoreTells(reported: seq<Done>, owed: seq<Done>, es: seq<Ended>, d: Done, e: Ended)
    requires AllTell(reported + owed, es) && Tells(d, e)
    ensures AllTell(reported + (owed + [d]), es + [e])
  {
    assert reported + (owed + [d]) == reported + owed + [d];
  }

  /** the front of the queue moves on: to the active transfers, or to those owed their callback */
  lemma StartAccounts(q: Queue, w: World, q': Queue, w': World)
    requires Accounted(q, w) && q.queue != [] && q'.queue == q.queue[1..]
    requires w'.started == w.started + [q.queue[0]] && w'.accepted == w.accepted && w'.reported == w.reported
    requires || (q'.active == q.active && exists f :: q'.owed == q.owed + [Done(q.queue[0], f)])
             || (q'.owed == q.owed && q.queue[0] !in q.active && q'.active.Keys == q.active.Keys + {q.queue[0]})
    ensures Accounted(q', w')
  {
    var id := q.queue[0];
    assert w.started + q.queue == w.started + [id] + q.queue[1..];
    assert multiset(w'.started) == multiset(w.started) + multiset{id};
    if q'.owed != q.owed {
      var f :| q'.owed == q.owed + [Done(id, f)];
      OwedMore(q.owed, Done(id, f));
    }
    assert forall i :: i in q'.active <==> i in q'.active.Keys;
  }

  function NewTransfer(d: Descriptor): Transfer {
    Transfer(Cursor(d, [], None, 0), None, 0, 0, false, false)
  }

  lemma StartQueueOk(cfg: Config, q: Queue, q': Queue)
    requires QueueOk(cfg, q) && q.queue != [] && q'.queue == q.queue[1..]
    requires q'.active == q.active ||
             (|q.active| < cfg.maxDatas && exists d :: q'.active == q.active[q.queue[0] := NewTransfer(d)])
    ensures QueueOk(cfg, q')
  {
    assert forall id :: id in q'.queue ==> id in q.queue && id != q.queue[0];
  }

  lemma StartCalls(q: Queue, w: World, q': Queue, w': World, id: Id, d: Descriptor)
    requires CallsMatch(q, w) && q'.active == q.active[id := NewTransfer(d)]
    requires w'.opening == w.opening + {id} && w'.flying == w.flying[id := []]
    ensures CallsMatch(q', w')
  {
  }

  lemma StartConserves(q: Queue, w: World, q': Queue, w': World, id: Id, d: Descriptor)
    requires Conserved(q, w) && q'.active == q.active[id := NewTransfer(d)] && w'.flying == w.flying[id := []]
    ensures Conserved(q', w')
  {
  }

  lemma StartHonest(q: Queue, w: World, q': Queue, w': World, id: Id, d: Descriptor)
    requires Honest(q, w) && q'.active == q.active[id := NewTransfer(d)] && w'.met == w.met[id := Met([], false)]
    requires q'.owed == q.owed && w'.reported == w.reported && w'.ended == w.ended
    ensures Honest(q', w')
  {
  }

  lemma Begins(cfg: Config, q: Queue, w: World, q': Queue, w': World, d: Descriptor)
    requires RoundInv(cfg, q, w) && q.queue != [] && |q.active| < cfg.maxDatas
    requires q' == q.(queue := q.queue[1..], active := q.active[q.queue[0] := NewTransfer(d)])
    requires w' == w.(started := w.started + [q.queue[0]], opening := w.opening + {q.queue[0]},
                      flying := w.flying[q.queue[0] := []], met := w.met[q.queue[0] := Met([], false)])
    ensures RoundInv(cfg, q', w')
  {
    StartCalls(q, w, q', w', q.queue[0], d);
    StartHonest(q, w, q', w', q.queue[0], d);
    StartQueueOk(cfg, q, q');
    StartAccounts(q, w, q', w');
  }

  lemma Refused(cfg: Config, q: Queue, w: World, q': Queue, w': World, d: Done, e: Error)
    requires RoundInv(cfg, q, w) && q.queue != [] && d == Done(q.queue[0], Some(e))
    requires q' == q.(queue := q.queue[1..], owed := q.owed + [d])
    requires w' == w.(started := w.started + [d.id], ended := w.ended + [Ended(d.id, Met([e], false))])
    ensures RoundInv(cfg, q', w') && (Conserved(q, w) ==> Conserved(q', w'))
  {
    StartQueueOk(cfg, q, q');
    StartAccounts(q, w, q', w');
    OneMoreTells(w.reported, q.owed, w.ended, d, Ended(d.id, Met([e], false)));
  }

  /** whatever ended since ended with an error */
  ghost predicate OnlyFailures(w: World, w': World) {
    w.ended <= w'.ended && forall i :: |w.ended| <= i < |w'.ended| ==> w'.ended[i].met.errors != []
  }

  /** the front of the queue starts, or is refused and owed its callback */
  method StartOne(cfg: Config, q: Queue, ghost w: World, dir: Direction) returns (q': Queue, ghost w': World)
    requires RoundInv(cfg, q, w) && q.queue != [] && |q.active| < cfg.maxDatas
    ensures RoundInv(cfg, q', w')
    ensures w'.started == w.started + [q.queue[0]] && w'.accepted == w.accepted && w'.reported == w.reported
    ensures Conserved(q, w) ==> Conserved(q', w')
    ensures OnlyFailures(w, w')
    ensures w'.flying == if dir.start(q.queue[0]).None? then w.flying else w.flying[q.queue[0] := []]
    ensures var id := q.queue[0];
            q' == if dir.start(id).None? then q.(queue := q.queue[1..], owed := q.owed + [Done(id, Some(dir.refusal))])
                  else q.(queue := q.queue[1..], active := q.active[id := NewTransfer(dir.start(id).value)])
  {
    var id := q.queue[0];
    if dir.start(id).None? {
      q' := q.(queue := q.queue[1..], owed := q.owed + [Done(id, Some(dir.refusal))]);
      w' := w.(started := w.started + [id], ended := w.ended + [Ended(id, Met([dir.refusal], false))]);
      Refused(cfg, q, w, q', w', Done(id, Some(dir.refusal)), dir.refusal);
    } else {
      q' := q.(queue := q.queue[1..], active := q.active[id := NewTransfer(dir.start(id).value)]);
      w' := w.(started := w.started + [id], opening := w.opening + {id}, flying := w.flying[id := []],
                  met := w.met[id := Met([], false)]);
      Begins(cfg, q, w, q', w', dir.start(id).value);
      if Conserved(q, w) {
        StartConserves(q, w, q', w', id, dir.start(id).value);
      }
    }
  }

  /** what runs goes on as it is, what is new starts as the store says */
  ghost predicate Begun(dir: Direction, q: Queue, w: World, q': Queue, w': World) {
    forall id :: id in q'.active && id in w'.flying ==>
                   if id in q.active
                   then id in w.flying && q'.active[id] == q.active[id] && w'.flying[id] == w.flying[id]
                   else dir.start(id).Some? && q'.active[id] == NewTransfer(dir.start(id).value) && w'.flying[id] == []
  }

  ghost predicate Carries(q: Queue, q': Queue) {
    forall id :: id in q.active ==> id in q'.active && q'.active[id] == q.active[id]
  }

  lemma BegunNext(dir: Direction, q: Queue, w: World, b: Queue, v: World, q': Queue, w': World)
    requires Begun(dir, q, w, b, v) && b.queue != [] && b.queue[0] !in b.active && b.active.Keys == v.flying.Keys
    requires Carries(q, b)
    requires w'.flying == if dir.start(b.queue[0]).None? then v.flying else v.flying[b.queue[0] := []]
    requires q'.active == if dir.start(b.queue[0]).None? then b.active
                          else b.active[b.queue[0] := NewTransfer(dir.start(b.queue[0]).value)]
    ensures Begun(dir, q, w, q', w') && Carries(q, q')
    ensures NoneFinished(b) ==> NoneFinished(q')
  {
  }

  method StartQueued(cfg: Config, q: Queue, ghost w: World, dir: Direction) returns (q': Queue, ghost w': World)
    requires RoundInv(cfg, q, w) && NoneFinished(q)
    ensures RoundInv(cfg, q', w') && NoneFinished(q') && q'.generation == q.generation
    ensures q'.queue == [] || |q'.active| == cfg.maxDatas
    ensures w.started <= w'.started && w'.accepted == w.accepted && w'.reported == w.reported
    ensures Conserved(q, w) ==> Conserved(q', w')
    ensures Carries(q, q') && Begun(dir, q, w, q', w') && OnlyFailures(w, w')
  {
    q', w' := q, w;
    while |q'.active| < cfg.maxDatas && q'.queue != []
      invariant RoundInv(cfg, q', w') && NoneFinished(q') && q'.generation == q.generation
      invariant w.started <= w'.started && w'.accepted == w.accepted && w'.reported == w.reported
      invariant Conserved(q, w) ==> Conserved(q', w')
      invariant Carries(q, q') && Begun(dir, q, w, q', w') && OnlyFailures(w, w')
      decreases |q'.queue|
    {
      ghost var before, world := q', w';
      FrontWaits(cfg, q', w');
      q', w' := StartOne(cfg, q', w', dir);
      BegunNext(dir, q, w, before, world, q', w');
    }
  }

  lemma FrontWaits(cfg: Config, q: Queue, w: World)
    requires RoundInv(cfg, q, w) && q.queue != []
    ensures q.queue[0] !in q.active && q.active.Keys == w.flying.Keys
  {
    assert q.queue[0] in q.queue;
  }

  lemma {:induction false} SizesJoin(a: seq<Piece>, b: seq<Piece>)
    ensures Sizes(a + b) == Sizes(a) + Sizes(b)
  {
    if b == [] {
      assert a + b == a;
    } else {
      SizesJoin(a, b[..|b| - 1]);
      assert (a + b)[..|a + b| - 1] == a + b[..|b| - 1];
    }
  }

  /** no chunk that the store refuses is begun */
  ghost predicate NoneRefused(dir: Direction, id: Id, sent: seq<Piece>) {
    forall p :: p in sent && p.offset == 0 ==> dir.refuses(id, p.chunk).None?
  }

  /** the store refuses the chunk that comes next */
  ghost predicate RefusedHere(dir: Direction, id: Id, c: Cursor, refused: Option<Error>) {
    c.StartingChunk().Some? && dir.refuses(id, c.StartingChunk().value) == refused
  }

  ghost predicate UnderWay(c: Cursor) {
    c.current.Some? ==> c.offset > 0
  }

  /** what filling its window does to a transfer, and the refusal it met if there was one */
  ghost predicate Filled(cfg: Config, dir: Direction, id: Id, t: Transfer, t': Transfer, sent: seq<Piece>,
                         refused: Option<Error>) {
    && TransferOk(cfg, t') && t'.outstanding == t.outstanding + |sent| && t'.open == t.open
    && t'.transferred == t.transferred && t'.cursor.descriptor == t.cursor.descriptor && t'.incomplete == t.incomplete
    && t.cursor.Valid() && t'.cursor.Left() + Sizes(sent) == t.cursor.Left()
    && (if refused.None? then t'.failure == t.failure
        else t.failure.None? && t'.failure == refused && RefusedHere(dir, id, t'.cursor, refused))
    && (UnderWay(t.cursor) ==> NoneRefused(dir, id, sent))
    && (!t.open ==> t' == t)
    && (t.cursor.Proper() ==>
          t'.cursor.Proper() && AllPieces(t.cursor, cfg.pieceSize) == sent + AllPieces(t'.cursor, cfg.pieceSize))
  }

  lemma FilledNext(cfg: Config, dir: Direction, id: Id, t: Transfer, b: Transfer, sent: seq<Piece>)
    requires Filled(cfg, dir, id, t, b, sent, None) && (UnderWay(t.cursor) ==> UnderWay(b.cursor))
    requires b.open && b.outstanding < cfg.window && !b.cursor.Done()
    requires b.cursor.StartingChunk().Some? ==> dir.refuses(id, b.cursor.StartingChunk().value).None?
    ensures var (piece, cursor) := b.cursor.Next(cfg.pieceSize);
            && piece.Some? && (UnderWay(t.cursor) ==> UnderWay(cursor))
            && Filled(cfg, dir, id, t, b.(cursor := cursor, outstanding := b.outstanding + 1), sent + [piece.value],
                      None)
  {
    NextConserves(b.cursor, cfg.pieceSize);
    var (piece, cursor) := b.cursor.Next(cfg.pieceSize);
    assert (sent + [piece.value])[..|sent|] == sent;
    if t.cursor.Proper() {
      NextProper(b.cursor, cfg.pieceSize);
      Regrouped(sent, piece.value, AllPieces(cursor, cfg.pieceSize));
    }
  }

  /** pieces go until the window is full, the cursor is done or a chunk is refused */
  method FillWindow(cfg: Config, id: Id, t: Transfer, dir: Direction)
    returns (t': Transfer, sent: seq<Piece>, ghost refused: Option<Error>)
    requires TransferOk(cfg, t)
    ensures Filled(cfg, dir, id, t, t', sent, refused)
    ensures t.open && t'.failure.None? ==> t'.outstanding >= cfg.window || t'.cursor.Done()
    ensures sent == [] && refused.None? ==> t' == t
    ensures !t.open || t.failure.Some? ==> t' == t
  {
    t', sent, refused := t, [], None;
    assert t.cursor.Proper() ==> AllPieces(t.cursor, cfg.pieceSize) == [] + AllPieces(t.cursor, cfg.pieceSize);
    while t'.open && t'.failure.None? && t'.outstanding < cfg.window && !t'.cursor.Done()
      invariant Filled(cfg, dir, id, t, t', sent, refused)
      invariant UnderWay(t.cursor) ==> UnderWay(t'.cursor)
      invariant !t.open || t.failure.Some? ==> t' == t
      invariant sent == [] && refused.None? ==> t' == t
      decreases cfg.window - t'.outstanding, t'.failure.None?
    {
      var starting := t'.cursor.StartingChunk();
      var refusal := if starting.Some? then dir.refuses(id, starting.value) else None;
      if refusal.Some? {
        t', refused := t'.(failure := refusal), refusal;
      } else {
        FilledNext(cfg, dir, id, t, t', sent);
        var (piece, cursor) := t'.cursor.Next(cfg.pieceSize);
        t' := t'.(cursor := cursor, outstanding := t'.outstanding + 1);
        sent := sent + [piece.value];
      }
    }
  }

  // ---------------------------------------------------------------- a transfer changes or ends

  /** the transfer as it is now: kept, or ended and owed its callback */
  function Put(q: Queue, id: Id, t: Transfer): Queue
    requires id in q.active
  {
    if Finished(t) then q.(active := q.active - {id}, owed := q.owed + [Done(id, OutcomeOf(t))])
    else q.(active := q.active[id := t])
  }

  ghost function PutWorld(w: World, id: Id, t: Transfer, pieces: seq<Piece>, m: Met): World {
    w.(opening := if t.open || Finished(t) then w.opening - {id} else w.opening,
       flying := if Finished(t) then w.flying - {id} else w.flying[id := pieces],
       met := if Finished(t) then w.met - {id} else w.met[id := m],
       ended := if Finished(t) then w.ended + [Ended(id, m)] else w.ended)
  }

  lemma PutQueueOk(cfg: Config, q: Queue, id: Id, t: Transfer)
    requires QueueOk(cfg, q) && id in q.active && (Finished(t) || TransferOk(cfg, t))
    ensures QueueOk(cfg, Put(q, id, t))
  {
    if Finished(t) {
      assert q.active.Keys == (q.active - {id}).Keys + {id};
      assert |q.active - {id}| == |(q.active - {id}).Keys| && |q.active| == |q.active.Keys|;
    } else {
      assert q.active[id := t].Keys == q.active.Keys;
      assert |q.active[id := t]| == |q.active[id := t].Keys| && |q.active| == |q.active.Keys|;
    }
  }

  lemma PutAccounted(q: Queue, w: World, id: Id, t: Transfer, pieces: seq<Piece>, m: Met)
    requires Accounted(q, w) && id in q.active
    ensures Accounted(Put(q, id, t), PutWorld(w, id, t, pieces, m))
  {
    if Finished(t) {
      OwedMore(q.owed, Done(id, OutcomeOf(t)));
    }
  }

  lemma PutCalls(q: Queue, w: World, id: Id, t: Transfer, pieces: seq<Piece>, m: Met)
    requires CallsMatch(q, w) && id in q.active && |pieces| == t.outstanding
    requires Finished(t) || t.open || !q.active[id].open
    ensures CallsMatch(Put(q, id, t), PutWorld(w, id, t, pieces, m))
  {
  }

  /** the callback of an ended data tells what the data met */
  lemma PutHonest(q: Queue, w: World, id: Id, t: Transfer, pieces: seq<Piece>, m: Met)
    requires Honest(q, w) && id in q.active && Remembers(t, m)
    ensures Honest(Put(q, id, t), PutWorld(w, id, t, pieces, m))
  {
    if Finished(t) {
      OneMoreTells(w.reported, q.owed, w.ended, Done(id, OutcomeOf(t)), Ended(id, m));
    }
  }

  /** whatever an answer or a round does to one transfer, the queue stays in order */
  lemma PutKeeps(cfg: Config, q: Queue, w: World, id: Id, t: Transfer, pieces: seq<Piece>, m: Met)
    requires RoundInv(cfg, q, w) && id in q.active
    requires Finished(t) || (TransferOk(cfg, t) && (t.open || !q.active[id].open))
    requires q.active[id].open ==> t.open
    requires |pieces| == t.outstanding && Remembers(t, m)
    ensures RoundInv(cfg, Put(q, id, t), PutWorld(w, id, t, pieces, m))
  {
    PutQueueOk(cfg, q, id, t);
    PutCalls(q, w, id, t, pieces, m);
    PutAccounted(q, w, id, t, pieces, m);
    PutHonest(q, w, id, t, pieces, m);
  }

  lemma PutInv(cfg: Config, q: Queue, w: World, id: Id, t: Transfer, pieces: seq<Piece>, m: Met)
    requires Inv(cfg, q, w) && id in q.active
    requires Finished(t) || (TransferOk(cfg, t) && (t.open || !q.active[id].open))
    requires q.active[id].open ==> t.open
    requires |pieces| == t.outstanding && Remembers(t, m)
    ensures Inv(cfg, Put(q, id, t), PutWorld(w, id, t, pieces, m))
  {
    PutKeeps(cfg, q, w, id, t, pieces, m);
    PutNoneFinished(q, id, t);
  }

  lemma PutNoneFinished(q: Queue, id: Id, t: Transfer)
    requires NoneFinished(q) && id in q.active
    ensures NoneFinished(Put(q, id, t))
  {
  }

  lemma PutConserves(q: Queue, w: World, id: Id, t: Transfer, pieces: seq<Piece>, m: Met)
    requires Conserved(q, w) && id in q.active && (!Finished(t) ==> Balanced(t, pieces))
    ensures Conserved(Put(q, id, t), PutWorld(w, id, t, pieces, m))
  {
  }

  // ---------------------------------------------------------------- the rest of a round

  /** pieces were sent after those on the way, the next ones of the cursor */
  ghost predicate Advanced(cfg: Config, t: Transfer, ps: seq<Piece>, t': Transfer, ps': seq<Piece>) {
    && ps <= ps' && t'.cursor.descriptor == t.cursor.descriptor && t'.open == t.open
    && (!t.open ==> t' == t && ps' == ps)
    && (t.cursor.Proper() ==>
          && t'.cursor.Proper()
          && AllPieces(t.cursor, cfg.pieceSize) == ps'[|ps|..] + AllPieces(t'.cursor, cfg.pieceSize))
  }

  /** an opened transfer has pieces on the way */
  predicate Fed(cfg: Config, t: Transfer) {
    cfg.window > 0 && t.open ==> t.outstanding > 0
  }

  ghost predicate NeverRefuses(dir: Direction) {
    forall id, no :: dir.refuses(id, no).None?
  }

  /** with a window a filled transfer is fed unless it is over; and over it is only through a refusal */
  method Feed(cfg: Config, id: Id, t: Transfer, dir: Direction)
    returns (t': Transfer, sent: seq<Piece>, ghost refused: Option<Error>)
    requires TransferOk(cfg, t) && !Finished(t)
    ensures Filled(cfg, dir, id, t, t', sent, refused)
    ensures Finished(t') || Fed(cfg, t')
    ensures Finished(t') ==> refused.Some?
    ensures NeverRefuses(dir) ==> refused.None?
  {
    t', sent, refused := FillWindow(cfg, id, t, dir);
  }

  /** in the middle of a round: the transfers still to look at are as they were, the others are fed */
  ghost predicate Midway(cfg: Config, q0: Queue, q: Queue, left: set<Id>, steady: bool) {
    && left <= q.active.Keys <= q0.active.Keys
    && (forall id :: id in left ==> q.active[id] == q0.active[id])
    && (forall id :: id in q.active && id !in left ==> !Finished(q.active[id]) && Fed(cfg, q.active[id]))
    && q.queue == q0.queue && q.generation == q0.generation
    && (steady ==> q.active.Keys == q0.active.Keys)
  }

  lemma MidwayNext(cfg: Config, q0: Queue, q: Queue, left: set<Id>, steady: bool, id: Id, t: Transfer)
    requires Midway(cfg, q0, q, left, steady) && id in left
    requires Finished(t) || Fed(cfg, t)
    requires steady ==> !Finished(t)
    ensures Midway(cfg, q0, Put(q, id, t), left - {id}, steady)
  {
  }

  lemma FedAdvances(cfg: Config, dir: Direction, id: Id, t: Transfer, ps: seq<Piece>, t': Transfer, sent: seq<Piece>,
                    refused: Option<Error>)
    requires Filled(cfg, dir, id, t, t', sent, refused)
    ensures Advanced(cfg, t, ps, t', ps + sent)
  {
    assert (ps + sent)[|ps|..] == sent && (sent == [] ==> ps + sent == ps);
  }

  /** an error met, if there is one, comes after those before it */
  ghost function Meets(m: Met, e: Option<Error>): Met {
    m.(errors := if e.Some? then m.errors + [e.value] else m.errors)
  }

  lemma FeedRemembered(t: Transfer, m: Met, t': Transfer, refused: Option<Error>)
    requires Remembers(t, m) && t'.incomplete == t.incomplete
    requires if refused.None? then t'.failure == t.failure else t.failure.None? && t'.failure == refused
    ensures Remembers(t', Meets(m, refused)) && (refused.Some? ==> Meets(m, refused).errors != [])
  {
  }

  lemma FedKeeps(cfg: Config, dir: Direction, q: Queue, w: World, id: Id, t: Transfer, sent: seq<Piece>,
                 refused: Option<Error>)
    requires RoundInv(cfg, q, w) && id in q.active && Filled(cfg, dir, id, q.active[id], t, sent, refused)
    ensures id in w.flying && id in w.met
    ensures RoundInv(cfg, Put(q, id, t), PutWorld(w, id, t, w.flying[id] + sent, Meets(w.met[id], refused)))
  {
    assert Remembers(q.active[id], w.met[id]);
    FeedRemembered(q.active[id], w.met[id], t, refused);
    PutKeeps(cfg, q, w, id, t, w.flying[id] + sent, Meets(w.met[id], refused));
  }

  /** what one transfer sends more leaves the balance as it is */
  lemma FedConserves(cfg: Config, dir: Direction, q: Queue, w: World, id: Id, t: Transfer, sent: seq<Piece>,
                     refused: Option<Error>, m: Met)
    requires Conserved(q, w) && id in q.active && id in w.flying
    requires Filled(cfg, dir, id, q.active[id], t, sent, refused)
    ensures Conserved(Put(q, id, t), PutWorld(w, id, t, w.flying[id] + sent, m))
  {
    SizesJoin(w.flying[id], sent);
    PutConserves(q, w, id, t, w.flying[id] + sent, m);
  }

  /** of the transfers that were there: the ones left are untouched, the others advanced */
  ghost predicate Feeding(cfg: Config, q: Queue, w: World, q': Queue, w': World, left: set<Id>) {
    forall id :: id in q'.active && id in q.active && id in w'.flying && id in w.flying ==>
                   if id in left then q'.active[id] == q.active[id] && w'.flying[id] == w.flying[id]
                   else Advanced(cfg, q.active[id], w.flying[id], q'.active[id], w'.flying[id])
  }

  lemma FeedingNext(cfg: Config, q: Queue, w: World, b: Queue, v: World, left: set<Id>, id: Id, t: Transfer,
                    pieces: seq<Piece>, m: Met)
    requires Feeding(cfg, q, w, b, v, left) && id in left && id in b.active && id in v.flying
    requires b.active.Keys == v.flying.Keys && Advanced(cfg, b.active[id], v.flying[id], t, pieces)
    ensures Feeding(cfg, q, w, Put(b, id, t), PutWorld(v, id, t, pieces, m), left - {id})
  {
    var q', w' := Put(b, id, t), PutWorld(v, id, t, pieces, m);
    forall j | j in q'.active && j in q.active && j in w'.flying && j in w.flying
      ensures if j in left - {id} then q'.active[j] == q.active[j] && w'.flying[j] == w.flying[j]
              else Advanced(cfg, q.active[j], w.flying[j], q'.active[j], w'.flying[j])
    {
      assert j in b.active && j in v.flying;
    }
  }

  lemma EndedFailed(w: World, v: World, id: Id, t: Transfer, pieces: seq<Piece>, m: Met)
    requires OnlyFailures(w, v) && (Finished(t) ==> m.errors != [])
    ensures OnlyFailures(w, PutWorld(v, id, t, pieces, m))
  {
  }

  /** the loop over the active transfers, with those still to look at */
  ghost predicate FeedLoop(cfg: Config, dir: Direction, q: Queue, w: World, q': Queue, w': World, left: set<Id>) {
    && RoundInv(cfg, q', w') && Midway(cfg, q, q', left, NeverRefuses(dir))
    && w'.accepted == w.accepted && w'.started == w.started && w'.reported == w.reported
    && (Conserved(q, w) ==> Conserved(q', w'))
    && Feeding(cfg, q, w, q', w', left) && OnlyFailures(w, w')
  }

  lemma FeedNext(cfg: Config, dir: Direction, q: Queue, w: World, b: Queue, v: World, left: set<Id>, id: Id,
                 t: Transfer, sent: seq<Piece>, refused: Option<Error>)
    requires FeedLoop(cfg, dir, q, w, b, v, left) && id in left
    requires id in b.active && Filled(cfg, dir, id, b.active[id], t, sent, refused)
    requires (Finished(t) || Fed(cfg, t)) && (Finished(t) ==> refused.Some?) && (NeverRefuses(dir) ==> refused.None?)
    ensures id in v.flying && id in v.met
    ensures FeedLoop(cfg, dir, q, w, Put(b, id, t),
                     PutWorld(v, id, t, v.flying[id] + sent, Meets(v.met[id], refused)), left - {id})
  {
    FedKeeps(cfg, dir, b, v, id, t, sent, refused);
    var m := Meets(v.met[id], refused);
    MidwayNext(cfg, q, b, left, NeverRefuses(dir), id, t);
    if Conserved(q, w) {
      FedConserves(cfg, dir, b, v, id, t, sent, refused, m);
    }
    FedAdvances(cfg, dir, id, b.active[id], v.flying[id], t, sent, refused);
    FeedingNext(cfg, q, w, b, v, left, id, t, v.flying[id] + sent, m);
    EndedFailed(w, v, id, t, v.flying[id] + sent, m);
  }

  method FeedAll(cfg: Config, q: Queue, ghost w: World, dir: Direction) returns (q': Queue, ghost w': World)
    requires RoundInv(cfg, q, w) && NoneFinished(q)
    ensures FeedLoop(cfg, dir, q, w, q', w', {})
  {
    q', w' := q, w;
    var left := q.active.Keys;
    while left != {}
      invariant FeedLoop(cfg, dir, q, w, q', w', left)
      decreases left
    {
      var id :| id in left;
      var t, sent;
      ghost var refused;
      t, sent, refused := Feed(cfg, id, q'.active[id], dir);
      FeedNext(cfg, dir, q, w, q', w', left, id, t, sent, refused);
      q', w' := Put(q', id, t), PutWorld(w', id, t, w'.flying[id] + sent, Meets(w'.met[id], refused));
      left := left - {id};
    }
  }

  /** after a round the transfers that run have advanced, and the others were started as the store says */
  ghost predicate RoundDone(cfg: Config, dir: Direction, q: Queue, w: World, q': Queue, w': World) {
    forall id :: id in q'.active && id in w'.flying ==>
                   if id in q.active && id in w.flying
                   then Advanced(cfg, q.active[id], w.flying[id], q'.active[id], w'.flying[id])
                   else dir.start(id).Some? && q'.active[id] == NewTransfer(dir.start(id).value) && w'.flying[id] == []
  }

  lemma RoundIsDone(cfg: Config, dir: Direction, q: Queue, w: World, b: Queue, v: World, q': Queue, w': World)
    requires Begun(dir, q, w, b, v) && Feeding(cfg, b, v, q', w', {})
    requires q'.active.Keys <= b.active.Keys == v.flying.Keys
    ensures RoundDone(cfg, dir, q, w, q', w')
  {
    forall id | id in q'.active && id in w'.flying
      ensures if id in q.active && id in w.flying
              then Advanced(cfg, q.active[id], w.flying[id], q'.active[id], w'.flying[id])
              else dir.start(id).Some? && q'.active[id] == NewTransfer(dir.start(id).value) && w'.flying[id] == []
    {
      assert id in b.active && id in v.flying;
    }
  }

  /** everything owed is reported */
  method Report(cfg: Config, q: Queue, ghost w: World) returns (q': Queue, ghost w': World)
    requires RoundInv(cfg, q, w)
    ensures RoundInv(cfg, q', w') && q' == q.(owed := [])
    ensures w' == w.(reported := w.reported + q.owed)
  {
    q', w' := q.(owed := []), w.(reported := w.reported + q.owed);
    assert Ids(w'.reported) == Ids(w.reported) + Ids(q.owed);
    assert multiset(Ids(w'.reported)) == multiset(Ids(w.reported)) + multiset(Ids(q.owed));
    assert w'.reported + q'.owed == w.reported + q.owed;
  }

  /** no transfer ends in a round without a refusal, so what was full stays full */
  lemma StaysFull(cfg: Config, q: Queue, q': Queue)
    requires Midway(cfg, q, q', {}, true)
    ensures |q'.active| == |q.active|
  {
    assert |q'.active| == |q'.active.Keys| && |q.active| == |q.active.Keys|;
  }

  lemma AllFed(cfg: Config, q: Queue, q': Queue, steady: bool)
    requires Midway(cfg, q, q', {}, steady)
    ensures NoneFinished(q') && forall id :: id in q'.active ==> Fed(cfg, q'.active[id])
  {
  }

  /** what a round does before it reports */
  ghost predicate Served(cfg: Config, dir: Direction, q: Queue, w: World, q': Queue, w': World) {
    && w.started <= w'.started && w'.accepted == w.accepted && w.reported <= w'.reported
    && (forall id :: id in q'.active ==> Fed(cfg, q'.active[id]))
    && (NeverRefuses(dir) ==> q'.queue == [] || |q'.active| == cfg.maxDatas)
    && (NeverRefuses(dir) ==> q.active.Keys <= q'.active.Keys)
    && (Conserved(q, w) ==> Conserved(q', w'))
    && RoundDone(cfg, dir, q, w, q', w') && OnlyFailures(w, w')
  }

  lemma Serves(cfg: Config, dir: Direction, q: Queue, w: World, b: Queue, v: World, q': Queue, w': World)
    requires w.started <= v.started && v.accepted == w.accepted && v.reported == w.reported
    requires (b.queue == [] || |b.active| == cfg.maxDatas) && Carries(q, b) && Begun(dir, q, w, b, v)
    requires (Conserved(q, w) ==> Conserved(b, v)) && OnlyFailures(w, v) && b.active.Keys == v.flying.Keys
    requires FeedLoop(cfg, dir, b, v, q', w', {})
    ensures Served(cfg, dir, q, w, q', w') && NoneFinished(q')
  {
    AllFed(cfg, b, q', NeverRefuses(dir));
    if NeverRefuses(dir) {
      StaysFull(cfg, b, q');
    }
    RoundIsDone(cfg, dir, q, w, b, v, q', w');
  }

  method Serve(cfg: Config, q: Queue, ghost w: World, dir: Direction) returns (q': Queue, ghost w': World)
    requires RoundInv(cfg, q, w) && NoneFinished(q)
    ensures RoundInv(cfg, q', w') && NoneFinished(q') && q'.generation == q.generation
    ensures Served(cfg, dir, q, w, q', w')
  {
    var b;
    ghost var v;
    b, v := StartQueued(cfg, q, w, dir);
    q', w' := FeedAll(cfg, b, v, dir);
    Serves(cfg, dir, q, w, b, v, q', w');
  }

  /** a round: start what fits, feed what is active, report what is over */
  method Collect(cfg: Config, q: Queue, ghost w: World, dir: Direction) returns (q': Queue, ghost w': World)
    requires Inv(cfg, q, w)
    ensures Inv(cfg, q', w') && q'.generation == q.generation && q'.owed == []
    ensures Served(cfg, dir, q, w, q', w')
  {
    q', w' := Serve(cfg, q, w, dir);
    q', w' := Report(cfg, q', w');
  }

  // ---------------------------------------------------------------- answers

  /** the answer to an opening: the plan of what to move, or why there is none */
  datatype OpenAnswer = NotOpened(error: Error) | Planned(chunks: seq<nat>, credit: nat, incomplete: bool)

  function AfterOpening(t: Transfer, a: OpenAnswer): Transfer {
    match a
    case NotOpened(e) => t.(failure := Some(e))
    case Planned(chunks, credit, incomplete) =>
      t.(cursor := t.cursor.(pending := t.cursor.pending + chunks), transferred := t.transferred + credit,
         incomplete := incomplete, open := true)
  }

  /** the answer to a piece: refused by the holder, taken here or there, or not acceptable */
  datatype PieceAnswer = Refused(error: Error) | Taken(octets: nat) | NotTaken(error: Error)

  function AfterPiece(t: Transfer, a: PieceAnswer): Transfer
    requires t.outstanding > 0
  {
    var t' := t.(outstanding := t.outstanding - 1);
    if t.failure.Some? then t'
    else
      match a
      case Refused(e) => t'.(failure := Some(e))
      case Taken(n) => t'.(transferred := t.transferred + n)
      case NotTaken(e) => t'.(failure := Some(e))
  }

  /** what a data met with the answer to its opening */
  ghost function OpeningMeets(m: Met, a: OpenAnswer): Met {
    if a.NotOpened? then Meets(m, Some(a.error)) else m.(lacking := a.incomplete)
  }

  /** what a data met with the answer to one of its pieces */
  ghost function PieceMeets(m: Met, a: PieceAnswer): Met {
    if a.Taken? then m else Meets(m, Some(a.error))
  }

  lemma OpeningRemembered(t: Transfer, m: Met, a: OpenAnswer)
    requires Remembers(t, m) && t.failure.None?
    ensures Remembers(AfterOpening(t, a), OpeningMeets(m, a))
  {
  }

  lemma OpeningKeeps(cfg: Config, q: Queue, w: World, id: Id, a: OpenAnswer)
    requires Inv(cfg, q, w) && id in w.opening
    ensures id in q.active && Inv(cfg, Put(q, id, AfterOpening(q.active[id], a)),
                                  PutWorld(w, id, AfterOpening(q.active[id], a), [], OpeningMeets(w.met[id], a)))
  {
    assert TransferOk(cfg, q.active[id]) && Remembers(q.active[id], w.met[id]);
    OpeningRemembered(q.active[id], w.met[id], a);
    PutInv(cfg, q, w, id, AfterOpening(q.active[id], a), [], OpeningMeets(w.met[id], a));
  }

  lemma PieceRemembered(t: Transfer, m: Met, a: PieceAnswer)
    requires Remembers(t, m) && t.outstanding > 0
    ensures Remembers(AfterPiece(t, a), PieceMeets(m, a))
  {
  }

  /** an answer of an older generation, or for a data that is not active, changes nothing */
  method Opened(cfg: Config, q: Queue, ghost w: World, generation: nat, id: Id, a: OpenAnswer)
    returns (q': Queue, ghost w': World)
    requires Inv(cfg, q, w) && (generation == q.generation ==> id in w.opening)
    ensures Inv(cfg, q', w')
    ensures q' == if generation == q.generation then Put(q, id, AfterOpening(q.active[id], a)) else q
    ensures w' == if generation == q.generation
                  then PutWorld(w, id, AfterOpening(q.active[id], a), [], OpeningMeets(w.met[id], a)) else w
  {
    q', w' := q, w;
    if generation == q.generation && id in q.active {
      var t := AfterOpening(q.active[id], a);
      OpeningKeeps(cfg, q, w, id, a);
      q', w' := Put(q, id, t), PutWorld(w, id, t, [], OpeningMeets(w.met[id], a));
    }
  }

  lemma PieceKeeps(cfg: Config, q: Queue, w: World, id: Id, i: nat, a: PieceAnswer)
    requires Inv(cfg, q, w) && id in w.flying && i < |w.flying[id]|
    ensures id in q.active && Inv(cfg, Put(q, id, AfterPiece(q.active[id], a)),
                                  PutWorld(w, id, AfterPiece(q.active[id], a),
                                           w.flying[id][..i] + w.flying[id][i + 1..], PieceMeets(w.met[id], a)))
  {
    var t := AfterPiece(q.active[id], a);
    assert TransferOk(cfg, q.active[id]) && Remembers(q.active[id], w.met[id]);
    PieceRemembered(q.active[id], w.met[id], a);
    PutInv(cfg, q, w, id, t, w.flying[id][..i] + w.flying[id][i + 1..], PieceMeets(w.met[id], a));
  }

  method PieceAnswered(cfg: Config, q: Queue, ghost w: World, generation: nat, id: Id, ghost i: nat, a: PieceAnswer)
    returns (q': Queue, ghost w': World)
    requires Inv(cfg, q, w) && (generation == q.generation ==> id in w.flying && i < |w.flying[id]|)
    ensures Inv(cfg, q', w')
    ensures q' == if generation == q.generation then Put(q, id, AfterPiece(q.active[id], a)) else q
    ensures w' == if generation == q.generation
                  then PutWorld(w, id, AfterPiece(q.active[id], a), w.flying[id][..i] + w.flying[id][i + 1..],
                                PieceMeets(w.met[id], a)) else w
  {
    q', w' := q, w;
    if generation == q.generation && id in q.active {
      var t := AfterPiece(q.active[id], a);
      PieceKeeps(cfg, q, w, id, i, a);
      q', w' := Put(q, id, t), PutWorld(w, id, t, w.flying[id][..i] + w.flying[id][i + 1..], PieceMeets(w.met[id], a));
    }
  }

  // ---------------------------------------------------------------- conservation, for uploads

  lemma {:induction false} SizesWithout(ps: seq<Piece>, i: nat)
    requires i < |ps|
    ensures Sizes(ps[..i] + ps[i + 1..]) + ps[i].size == Sizes(ps)
  {
    assert ps == ps[..i] + [ps[i]] + ps[i + 1..];
    SizesJoin(ps[..i] + [ps[i]], ps[i + 1..]);
    SizesJoin(ps[..i], [ps[i]]);
    SizesJoin(ps[..i], ps[i + 1..]);
    assert [ps[i]][..0] == [];
  }

  /** what the holder lacks goes, what it has counts as moved: together the whole data */
  method PlanUpload(d: Descriptor, held: nat -> bool) returns (chunks: seq<nat>, credit: nat)
    requires d.chunkSize != 0
    ensures credit + TotalOf(d, chunks) == d.encSize
    ensures forall no: nat :: no in chunks <==> no < d.ChunkCount() && !held(no)
    ensures Cursor(d, chunks, None, 0).Proper()
  {
    chunks, credit := [], 0;
    for no := 0 to d.ChunkCount()
      invariant credit + TotalOf(d, chunks) == SizeUpTo(d, no)
      invariant forall k: nat :: k in chunks <==> k < no && !held(k)
      invariant forall i, j :: 0 <= i < j < |chunks| ==> chunks[i] != chunks[j]
    {
      if held(no) {
        credit := credit + d.ChunkEncSize(no);
      } else {
        TotalOfAppended(d, chunks, no);
        chunks := chunks + [no];
      }
    }
    ChunksSumToSize(d);
    assert forall i :: 0 <= i < |chunks| ==> chunks[i] in chunks;
  }

  /** an upload opens balanced */
  lemma UploadOpens(cfg: Config, q: Queue, w: World, id: Id, chunks: seq<nat>, credit: nat, m: Met)
    requires Inv(cfg, q, w) && Conserved(q, w) && id in w.opening
    requires credit + TotalOf(q.active[id].cursor.descriptor, chunks) == q.active[id].cursor.descriptor.encSize
    ensures var t := AfterOpening(q.active[id], Planned(chunks, credit, false));
            && Balanced(t, []) && Conserved(Put(q, id, t), PutWorld(w, id, t, [], m))
            && (Finished(t) ==> t.transferred == t.cursor.descriptor.encSize)
  {
    var t := AfterOpening(q.active[id], Planned(chunks, credit, false));
    assert q.active[id].cursor.pending + chunks == chunks;
    PutConserves(q, w, id, t, [], m);
  }

  lemma PieceBalances(t: Transfer, pieces: seq<Piece>, i: nat, a: PieceAnswer)
    requires Balanced(t, pieces) && i < |pieces| == t.outstanding && t.open
    requires a.Refused? || a == Taken(pieces[i].size)
    ensures var t' := AfterPiece(t, a);
            && Balanced(t', pieces[..i] + pieces[i + 1..])
            && (Finished(t') && t'.failure.None? ==> t'.transferred == t'.cursor.descriptor.encSize)
  {
    SizesWithout(pieces, i);
  }

  /** a piece that went stays in the balance, and a successful end has moved exactly the data */
  lemma UploadMoves(cfg: Config, q: Queue, w: World, id: Id, i: nat, a: PieceAnswer, m: Met)
    requires Inv(cfg, q, w) && Conserved(q, w) && id in w.flying && i < |w.flying[id]|
    requires a.Refused? || a == Taken(w.flying[id][i].size)
    ensures var t, pieces := AfterPiece(q.active[id], a), w.flying[id][..i] + w.flying[id][i + 1..];
            && Balanced(t, pieces) && Conserved(Put(q, id, t), PutWorld(w, id, t, pieces, m))
            && (Finished(t) && t.failure.None? ==> t.transferred == t.cursor.descriptor.encSize)
  {
    assert TransferOk(cfg, q.active[id]);
    PieceBalances(q.active[id], w.flying[id], i, a);
    PutConserves(q, w, id, AfterPiece(q.active[id], a), w.flying[id][..i] + w.flying[id][i + 1..], m);
  }

  // ---------------------------------------------------------------- what the invariant says

  /** an accepted data is waiting, active, owed its callback or reported: as often as it was accepted */
  lemma ReportedOnce(cfg: Config, q: Queue, w: World, id: Id)
    requires Inv(cfg, q, w)
    ensures multiset(w.accepted)[id] ==
            multiset(q.queue)[id] + One(id in q.active) + multiset(Ids(q.owed))[id] + multiset(Ids(w.reported))[id]
    ensures w.started <= w.accepted
  {
    assert multiset(w.accepted) == multiset(w.started) + multiset(q.queue);
  }

  /** the callbacks made or owed are exactly those that tell how a data of the generation ended */
  lemma DoneTells(cfg: Config, q: Queue, w: World, d: Done)
    requires Inv(cfg, q, w)
    ensures d in w.reported + q.owed <==> exists e :: e in w.ended && Tells(d, e)
  {
    var ds := w.reported + q.owed;
    if d in ds {
      var i :| 0 <= i < |ds| && ds[i] == d;
      assert Tells(d, w.ended[i]) && w.ended[i] in w.ended;
    }
    if exists e :: e in w.ended && Tells(d, e) {
      var e :| e in w.ended && Tells(d, e);
      var i :| 0 <= i < |w.ended| && w.ended[i] == e;
      assert ds[i] in ds && Tells(ds[i], w.ended[i]);
    }
  }
}
