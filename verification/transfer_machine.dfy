/**
 * The transfer queue as the object the owner and the channel's answers work on
 * (spsync/transfer/transfer_queue.hpp), and the pump that runs its rounds
 * (spsync/transfer/action_pump.hpp).
 */
module TransferMachine {
  import T = TransferQueue

  class Machine {
    const cfg: T.Config
    var queue: seq<T.Id>
    var active: map<T.Id, T.Transfer>
    var owed: seq<T.Done>
    var generation: nat
    ghost var world: T.World

    function Value(): T.Queue
      reads this
    {
      T.Queue(queue, active, owed, generation)
    }

    ghost predicate Valid()
      reads this
    {
      T.Inv(cfg, Value(), world)
    }

    constructor (cfg: T.Config)
      ensures Valid() && this.cfg == cfg && Value() == T.Queue([], map[], [], 0) && world == T.NoWorld
    {
      this.cfg := cfg;
      queue, active, owed, generation := [], map[], [], 0;
      world := T.NoWorld;
    }

    method Take(q: T.Queue, ghost w: T.World)
      requires T.Inv(cfg, q, w)
      modifies this
      ensures Valid() && Value() == q && world == w
    {
      queue, active, owed, generation := q.queue, q.active, q.owed, q.generation;
      world := w;
    }

    /** false for a data that is queued or on its way; else it waits behind the others */
    method Enqueue(id: T.Id) returns (added: bool)
      requires Valid()
      modifies this
      ensures Valid() && active == old(active) && owed == old(owed) && generation == old(generation)
      ensures added <==> id !in old(active) && id !in old(queue)
      ensures queue == if added then old(queue) + [id] else old(queue)
      ensures world == if added then old(world).(accepted := old(world).accepted + [id]) else old(world)
    {
      var q;
      ghost var w;
      added, q, w := T.Enqueue(cfg, Value(), world, id);
      Take(q, w);
    }

    method Reset()
      requires Valid()
      modifies this
      ensures Valid() && Value() == T.Queue([], map[], [], old(generation) + 1) && world == T.NoWorld
    {
      var q;
      ghost var w;
      q, w := T.Reset(cfg, Value());
      Take(q, w);
    }

    /** a round; at most maxDatas transfers with at most window pieces each, none of them idle or over */
    method Round(dir: T.Direction)
      requires Valid()
      modifies this
      ensures Valid() && generation == old(generation) && owed == []
      ensures T.Served(cfg, dir, old(Value()), old(world), Value(), world) && world.started <= world.accepted
    {
      var q;
      ghost var w;
      q, w := T.Collect(cfg, Value(), world, dir);
      T.ReportedOnce(cfg, q, w, []);
      Take(q, w);
    }

    /** the holder answered an opening; an answer to a call made before a reset changes nothing */
    method OnOpened(answered: nat, id: T.Id, a: T.OpenAnswer)
      requires Valid() && (answered == generation ==> id in world.opening)
      modifies this
      ensures Valid()
      ensures answered != old(generation) ==> Value() == old(Value()) && world == old(world)
      ensures answered == old(generation) ==>
                && Value() == T.Put(old(Value()), id, T.AfterOpening(old(active)[id], a))
                && world == T.PutWorld(old(world), id, T.AfterOpening(old(active)[id], a), [],
                                       T.OpeningMeets(old(world).met[id], a))
    {
      var q;
      ghost var w;
      q, w := T.Opened(cfg, Value(), world, answered, id, a);
      Take(q, w);
    }

    method OnPiece(answered: nat, id: T.Id, ghost i: nat, a: T.PieceAnswer)
      requires Valid() && (answered == generation ==> id in world.flying && i < |world.flying[id]|)
      modifies this
      ensures Valid()
      ensures answered != old(generation) ==> Value() == old(Value()) && world == old(world)
      ensures answered == old(generation) ==>
                && Value() == T.Put(old(Value()), id, T.AfterPiece(old(active)[id], a))
                && world == T.PutWorld(old(world), id, T.AfterPiece(old(active)[id], a),
                                       old(world).flying[id][..i] + old(world).flying[id][i + 1..],
                                       T.PieceMeets(old(world).met[id], a))
    {
      var q;
      ghost var w;
      q, w := T.PieceAnswered(cfg, Value(), world, answered, id, i, a);
      Take(q, w);
    }
  }

  /** where the runner of the pump is: none, about to collect, or running the actions it collected */
  datatype Runner = Idle | AboutToCollect | Acting

  /**
   * asked counts the calls that wanted a round, served those that came before the latest
   * collect began: a round that begins after a call serves it.
   */
  class ActionPump {
    var running: bool
    var more: bool
    ghost var runner: Runner
    ghost var asked: nat
    ghost var served: nat

    ghost predicate Valid()
      reads this
    {
      && served <= asked
      && (running <==> runner != Idle)
      && (runner == Idle ==> !more && served == asked)
      && (runner == Acting && !more ==> served == asked)
    }

    constructor ()
      ensures Valid() && runner == Idle && asked == 0
    {
      running, more, runner, asked, served := false, false, Idle, 0, 0;
    }

    /** the caller becomes the runner when there is none, else it only flags another round */
    method Enter() returns (becomes: bool)
      requires Valid()
      modifies this
      ensures Valid() && asked == old(asked) + 1 && served == old(served)
      ensures becomes <==> old(runner) == Idle
      ensures runner == if becomes then AboutToCollect else old(runner)
    {
      becomes := !running;
      running := true;
      more := more || !becomes;
      asked := asked + 1;
      if becomes {
        runner := AboutToCollect;
      }
    }

    method Collect()
      requires Valid() && runner == AboutToCollect
      modifies this
      ensures Valid() && runner == Acting && served == asked == old(asked)
    {
      runner, served := Acting, asked;
    }

    /** the runner leaves only when every call has had a round that began after it */
    method Again() returns (again: bool)
      requires Valid() && runner == Acting
      modifies this
      ensures Valid() && asked == old(asked) && served == old(served)
      ensures runner == if again then AboutToCollect else Idle
      ensures !again ==> served == asked
    {
      again := more;
      more := false;
      running := again;
      runner := if again then AboutToCollect else Idle;
    }
  }
}
