/**
 * Replicas that learn of an origin's records from pushes and pulls (the planning of
 * spsync/core/divergence.cpp, the answers of spsync/core/record_storage.cpp). Messages are lost,
 * repeated and reordered at will; still no replica ever has a hole below its head.
 */
module AntiEntropy {
  import opened Octets
  import opened Divergence

  // ---------------------------------------------------------------- planning

  /** none wanted when from is 0 */
  datatype PullRange = PullRange(from: nat, to: nat) {
    predicate Wanted() {
      from != 0
    }
  }

  const NoPull := PullRange(0, 0)

  function PlanPull(known: nat, peerHead: nat, div: Bounds): PullRange {
    var held := if known < div.lastCommon then div.lastCommon else known;
    if div.firstDivergent == 0 && peerHead != 0 && held < peerHead then PullRange(held + 1, peerHead) else NoPull
  }

  function PlanPush(known: nat, pushed: nat): PullRange {
    var next := if known != 0 then known + 1 else 1;
    if pushed > next then PullRange(next, pushed) else NoPull
  }

  // ---------------------------------------------------------------- what a replica holds

  /** everything of the origin before the given sequence */
  ghost predicate HoldsBelow(origin: set<nat>, held: set<nat>, n: nat) {
    forall q: nat :: q in origin && q < n ==> q in held
  }

  /** exactly the records of the origin up to the head, the newest of them */
  ghost predicate Gapless(origin: set<nat>, held: set<nat>) {
    held <= origin && 0 !in held && forall h: nat :: h in held ==> HoldsBelow(origin, held, h)
  }

  /** the newest sequence, 0 for none */
  ghost predicate IsHead(held: set<nat>, head: nat) {
    (forall q :: q in held ==> q <= head) && (head == 0 || head in held)
  }

  lemma HeadHoldsBelow(origin: set<nat>, held: set<nat>, head: nat)
    requires Gapless(origin, held) && 0 !in origin && IsHead(held, head)
    ensures HoldsBelow(origin, held, head + 1)
    ensures forall q: nat :: q in held <==> q in origin && q <= head
  {
    if head != 0 {
      assert HoldsBelow(origin, held, head);
    }
  }

  /** a range that is wanted has exactly what is missing up to its end; one that is not has nothing missing to offer */
  lemma PullIsWhatIsMissing(origin: set<nat>, held: set<nat>, known: nat, peerHead: nat, div: Bounds)
    requires Gapless(origin, held) && 0 !in origin && IsHead(held, known)
    requires div.firstDivergent == 0 && (div.lastCommon == 0 || div.lastCommon in held)
    ensures var range := PlanPull(known, peerHead, div);
            if range.Wanted()
            then forall q: nat :: q in origin ==> (range.from <= q <= range.to <==> q <= peerHead && q !in held)
            else forall q: nat :: q in origin && q <= peerHead ==> q in held
  {
    HeadHoldsBelow(origin, held, known);
  }

  /** once a sample is held under another hash nothing is pulled; without one whatever is beyond both is */
  lemma ForkStopsPull(samples: seq<Block>, held: nat -> OctetVector, div: Bounds, known: nat, peerHead: nat)
    requires IsDivergence(samples, held, div)
    ensures PlanPull(known, peerHead, div).Wanted() <==>
            && (forall i :: 0 <= i < |samples| ==> !Conflicts(samples[i], held))
            && known < peerHead
            && (forall i :: 0 <= i < |samples| && Agrees(samples[i], held) ==> samples[i].sequence < peerHead)
  {
    if div.firstDivergent != 0 {
      var i :| 0 <= i < |samples| && Conflicts(samples[i], held) && samples[i].sequence == div.firstDivergent;
    }
    if div.lastCommon != 0 {
      var i :| 0 <= i < |samples| && Agrees(samples[i], held) && samples[i].sequence == div.lastCommon;
    }
  }

  /** so a replica that forked at or below its head pulls nothing from the history it forked from */
  lemma ForkedPullsNothing(head: nat, fork: nat, s: seq<nat>, hashes: nat -> OctetVector, held: nat -> OctetVector,
                           samples: seq<Block>, div: Bounds, known: nat, peerHead: nat)
    requires 0 < fork <= head && SamplesOf(head, s) && Sampled(s, hashes, samples)
    requires Forked(head, fork, hashes, held) && IsDivergence(samples, held, div)
    ensures !PlanPull(known, peerHead, div).Wanted()
  {
    BracketsFork(head, fork, s, hashes, held, samples, div);
  }

  /**
   * A pushed record is taken as it is exactly when nothing can be missing before it, whatever an
   * origin with these records has issued besides.
   */
  lemma TakenOnlyWithoutHole(held: set<nat>, known: nat, pushed: nat)
    requires 0 !in held && IsHead(held, known) && pushed > 0
    ensures !PlanPush(known, pushed).Wanted() <==>
            forall origin: set<nat> :: 0 !in origin && Gapless(origin, held) && pushed in origin ==>
                                         HoldsBelow(origin, held, pushed)
  {
    if PlanPush(known, pushed).Wanted() {
      var missed := known + 1;
      var origin := held + {missed, pushed};
      assert missed in origin && missed < pushed && missed !in held;
      assert Gapless(origin, held);
      assert !HoldsBelow(origin, held, pushed);
    } else {
      forall origin: set<nat> | 0 !in origin && Gapless(origin, held) && pushed in origin
        ensures HoldsBelow(origin, held, pushed)
      {
        HeadHoldsBelow(origin, held, known);
      }
    }
  }

  // ---------------------------------------------------------------- the system

  type Replica = nat

  /** a pull on its way to a peer; an answer on its way back, from the sequence asked for on */
  datatype Message =
    | Pull(asker: Replica, range: PullRange)
    | Answer(asker: Replica, from: nat, records: seq<nat>)

  /** messages stay: each can arrive at any time, any number of times, or never */
  datatype System = System(origin: set<nat>, replicas: map<Replica, set<nat>>, messages: set<Message>)

  /** records in order, all that a peer holds from the sequence asked for up to the last of them */
  ghost predicate IsAnswer(held: set<nat>, range: PullRange, records: seq<nat>) {
    && (forall i, j :: 0 <= i < j < |records| ==> records[i] < records[j])
    && (forall i :: 0 <= i < |records| ==> records[i] in held && range.from <= records[i] <= range.to)
    && (forall i, q: nat :: 0 <= i < |records| && q in held && range.from <= q <= records[i] ==> q in records)
  }

  datatype Step =
    | Issue(q: nat)
    | Push(r: Replica, q: nat)
    | PlanAntiEntropy(r: Replica, peerHead: nat, div: Bounds)
    | AnswerPull(pull: Message, peer: Replica, records: seq<nat>)
    | Apply(answer: Message)

  ghost predicate Takes(s: System, s': System, step: Step) {
    match step
    case Issue(q) =>
      // an honest origin: one record for each sequence, the sequences grow and may skip
      q > 0 && (forall p :: p in s.origin ==> p < q) && s' == s.(origin := s.origin + {q})
    case Push(r, q) =>
      && r in s.replicas && q in s.origin
      && exists known :: IsHead(s.replicas[r], known) && s' == Pushed(s, r, q, known)
    case PlanAntiEntropy(r, peerHead, div) =>
      && r in s.replicas && (div.lastCommon == 0 || div.lastCommon in s.replicas[r])
      && exists known :: IsHead(s.replicas[r], known) && s' == Asks(s, r, PlanPull(known, peerHead, div))
    case AnswerPull(pull, peer, records) =>
      && pull.Pull? && pull in s.messages && peer in s.replicas && IsAnswer(s.replicas[peer], pull.range, records)
      && s' == s.(messages := s.messages + {Answer(pull.asker, pull.range.from, records)})
    case Apply(answer) =>
      // the first record of the answer is applied, the others follow
      && answer.Answer? && answer in s.messages && answer.records != [] && answer.asker in s.replicas
      && s' == Applied(s, answer)
  }

  ghost function Asks(s: System, r: Replica, range: PullRange): System {
    if range.Wanted() then s.(messages := s.messages + {Pull(r, range)}) else s
  }

  ghost function Pushed(s: System, r: Replica, q: nat, known: nat): System
    requires r in s.replicas
  {
    var range := PlanPush(known, q);
    if range.Wanted() then Asks(s, r, range) else s.(replicas := s.replicas[r := s.replicas[r] + {q}])
  }

  ghost function Applied(s: System, a: Message): System
    requires a.Answer? && a.records != [] && a.asker in s.replicas
  {
    s.(replicas := s.replicas[a.asker := s.replicas[a.asker] + {a.records[0]}],
       messages := s.messages + {Answer(a.asker, a.records[0] + 1, a.records[1..])})
  }

  // ---------------------------------------------------------------- what always holds

  /** the records bring everything of the origin from the given sequence on, up to the last of them */
  ghost predicate Continues(origin: set<nat>, from: nat, records: seq<nat>) {
    && (forall i, j :: 0 <= i < j < |records| ==> records[i] < records[j])
    && (forall i :: 0 <= i < |records| ==> records[i] in origin && from <= records[i])
    && (forall i, q: nat :: 0 <= i < |records| && q in origin && from <= q <= records[i] ==> q in records)
  }

  /** the record before is held, and everything before that */
  ghost predicate AsksFrom(origin: set<nat>, held: set<nat>, from: nat) {
    from != 0 && (from == 1 || from - 1 in held) && HoldsBelow(origin, held, from)
  }

  ghost predicate MessageOk(s: System, m: Message) {
    m.asker in s.replicas ==>
      match m
      case Pull(r, range) => AsksFrom(s.origin, s.replicas[r], range.from)
      case Answer(r, from, records) => AsksFrom(s.origin, s.replicas[r], from) && Continues(s.origin, from, records)
  }

  ghost predicate Inv(s: System) {
    && 0 !in s.origin
    && (forall r :: r in s.replicas ==> Gapless(s.origin, s.replicas[r]))
    && (forall m :: m in s.messages ==> MessageOk(s, m))
  }

  /** nothing is held and nothing is on its way */
  ghost predicate Initial(s: System) {
    s.origin == {} && s.messages == {} && forall r :: r in s.replicas ==> s.replicas[r] == {}
  }

  /** a replica gets a record before which it has everything */
  lemma Grows(s: System, s': System, r: Replica, q: nat)
    requires Inv(s) && r in s.replicas && q in s.origin && HoldsBelow(s.origin, s.replicas[r], q)
    requires s'.origin == s.origin && s'.replicas == s.replicas[r := s.replicas[r] + {q}]
    ensures forall p :: p in s'.replicas ==> Gapless(s'.origin, s'.replicas[p])
    ensures forall m :: m in s.messages ==> MessageOk(s', m)
  {
    assert forall h: nat :: h in s.replicas[r] ==> HoldsBelow(s.origin, s'.replicas[r], h);
    forall m | m in s.messages
      ensures MessageOk(s', m)
    {
      assert MessageOk(s, m);
    }
  }

  lemma IssueKeeps(s: System, s': System, q: nat)
    requires Inv(s) && Takes(s, s', Issue(q))
    ensures Inv(s')
  {
    forall r | r in s'.replicas
      ensures Gapless(s'.origin, s'.replicas[r])
    {
      forall h: nat | h in s'.replicas[r]
        ensures HoldsBelow(s'.origin, s'.replicas[r], h)
      {
        assert HoldsBelow(s.origin, s.replicas[r], h);
      }
    }
    forall m | m in s'.messages
      ensures MessageOk(s', m)
    {
      assert MessageOk(s, m);
    }
  }

  lemma PushKeeps(s: System, s': System, r: Replica, q: nat)
    requires Inv(s) && Takes(s, s', Push(r, q))
    ensures Inv(s')
  {
    var known :| IsHead(s.replicas[r], known) && s' == Pushed(s, r, q, known);
    HeadHoldsBelow(s.origin, s.replicas[r], known);
    if !PlanPush(known, q).Wanted() {
      Grows(s, s', r, q);
    } else {
      Remembers(s, s', Pull(r, PlanPush(known, q)));
    }
  }

  lemma Remembers(s: System, s': System, m: Message)
    requires Inv(s) && MessageOk(s, m) && s' == s.(messages := s.messages + {m})
    ensures Inv(s')
  {
    forall n | n in s'.messages
      ensures MessageOk(s', n)
    {
      assert MessageOk(s, n);
    }
  }

  lemma PlanKeeps(s: System, s': System, r: Replica, peerHead: nat, div: Bounds)
    requires Inv(s) && Takes(s, s', PlanAntiEntropy(r, peerHead, div))
    ensures Inv(s')
  {
    var known :| IsHead(s.replicas[r], known) && s' == Asks(s, r, PlanPull(known, peerHead, div));
    HeadHoldsBelow(s.origin, s.replicas[r], known);
    if PlanPull(known, peerHead, div).Wanted() {
      Remembers(s, s', Pull(r, PlanPull(known, peerHead, div)));
    }
  }

  lemma AnswerKeeps(s: System, s': System, pull: Message, peer: Replica, records: seq<nat>)
    requires Inv(s) && Takes(s, s', AnswerPull(pull, peer, records))
    ensures Inv(s')
  {
    assert MessageOk(s, pull) && Gapless(s.origin, s.replicas[peer]);
    forall i, q: nat | 0 <= i < |records| && q in s.origin && pull.range.from <= q <= records[i]
      ensures q in records
    {
      assert HoldsBelow(s.origin, s.replicas[peer], records[i]);
    }
    Remembers(s, s', Answer(pull.asker, pull.range.from, records));
  }

  lemma ApplyKeeps(s: System, s': System, a: Message)
    requires Inv(s) && Takes(s, s', Apply(a))
    ensures Inv(s')
  {
    var r, q, rest := a.asker, a.records[0], a.records[1..];
    assert MessageOk(s, a);
    assert HoldsBelow(s.origin, s.replicas[r], q);
    Grows(s, s', r, q);
    RestContinues(s.origin, a.from, a.records);
    assert MessageOk(s', Answer(r, q + 1, rest));
  }

  lemma RestContinues(origin: set<nat>, from: nat, records: seq<nat>)
    requires Continues(origin, from, records) && records != []
    ensures Continues(origin, records[0] + 1, records[1..])
  {
    var rest := records[1..];
    assert forall i :: 0 <= i < |rest| ==> rest[i] == records[i + 1];
    forall i, q: nat | 0 <= i < |rest| && q in origin && records[0] + 1 <= q <= rest[i]
      ensures q in rest
    {
      assert q <= records[i + 1] && from <= q;
      assert q in records && q != records[0];
    }
  }

  lemma StepKeeps(s: System, s': System, step: Step)
    requires Inv(s) && Takes(s, s', step)
    ensures Inv(s')
  {
    match step
    case Issue(q) => IssueKeeps(s, s', q);
    case Push(r, q) => PushKeeps(s, s', r, q);
    case PlanAntiEntropy(r, peerHead, div) => PlanKeeps(s, s', r, peerHead, div);
    case AnswerPull(pull, peer, records) => AnswerKeeps(s, s', pull, peer, records);
    case Apply(answer) => ApplyKeeps(s, s', answer);
  }

  ghost predicate Follows(s: System, s': System) {
    exists step :: Takes(s, s', step)
  }

  ghost predicate Run(states: seq<System>) {
    |states| > 0 && Initial(states[0]) && forall i :: 0 < i < |states| ==> Follows(states[i - 1], states[i])
  }

  lemma {:induction false} RunKeeps(states: seq<System>)
    requires Run(states)
    ensures Inv(states[|states| - 1])
  {
    var n := |states|;
    if n > 1 {
      var before := states[..n - 1];
      RunKeeps(before);
      assert Follows(states[n - 2], states[n - 1]);
      var step :| Takes(states[n - 2], states[n - 1], step);
      StepKeeps(states[n - 2], states[n - 1], step);
    }
  }

  /** in every run: what a replica holds is every record of the origin up to its head, and nothing else */
  lemma NoHoles(states: seq<System>, r: Replica, head: nat)
    requires Run(states) && r in states[|states| - 1].replicas && IsHead(states[|states| - 1].replicas[r], head)
    ensures var s := states[|states| - 1];
            forall q: nat :: q in s.replicas[r] <==> q in s.origin && q <= head
  {
    RunKeeps(states);
    var s := states[|states| - 1];
    HeadHoldsBelow(s.origin, s.replicas[r], head);
  }

  /** a pull that a peer answers in full leaves nothing of its end's records missing */
  lemma {:induction false} FullAnswerCloses(origin: set<nat>, held: set<nat>, peer: set<nat>, range: PullRange,
                                            records: seq<nat>)
    requires HoldsBelow(origin, held, range.from) && HoldsBelow(origin, peer, range.to + 1)
    requires IsAnswer(peer, range, records)
    requires forall q: nat :: q in peer && range.from <= q <= range.to ==> q in records
    ensures HoldsBelow(origin, held + (set q | q in records), range.to + 1)
  {
    forall q: nat | q in origin && q < range.to + 1
      ensures q in held || q in records
    {
      assert q in peer;
    }
  }
}
