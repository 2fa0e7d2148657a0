/**
 * Refusals by the server with nothing to fetch (spsync/engine/sync_engine.cpp): every refused
 * record is marked in its form and the commit loop goes on. On one view no form is sent twice,
 * so the exchange ends after at most one commit for each record that is left.
 */
module CommitRetry {
  import opened Common
  import opened CommitLoop

  /** a tag stands for one content, and is not empty */
  ghost predicate TagsCommit(c: Crypto) {
    && (forall p: Pending, q: Pending :: p.tag == q.tag ==> c.hash(p) == c.hash(q))
    && (forall d: Draft :: c.seal(d) != [])
  }

  function Marked(x: Context, p: Pending): Context {
    x.(rejected := x.rejected[p.tag := x.crypto.hash(p)])
  }

  /** what waits goes on waiting when another record is marked, and the marked one waits too */
  lemma WaitsMore(x: Context, r: Pending, p: Pending)
    requires TagsCommit(x.crypto) && (Waits(x, p) || (p == r && Settled(x.mode, x.view, p.draft)))
    ensures Waits(Marked(x, r), p)
  {
  }

  lemma AllWaitMore(x: Context, qs: seq<Pending>, i: nat)
    requires TagsCommit(x.crypto) && SentAt(x, qs, i)
    ensures AllWait(Marked(x, qs[i]), qs[..i + 1])
  {
    var front := qs[..i + 1];
    forall k | 0 <= k < |front|
      ensures Waits(Marked(x, qs[i]), front[k])
    {
      assert k < i ==> Waits(x, qs[..i][k]);
      WaitsMore(x, qs[i], front[k]);
    }
  }

  ghost predicate Later(x: Context, ps: seq<Pending>, n: nat, qs: seq<Pending>, sent: Option<Pending>, i: nat) {
    && |qs| <= |ps|
    && (if sent.Some? then n <= i && SentAt(x, qs, i) && qs[i] == sent.value else n <= |qs| && AllWait(x, qs))
  }

  /** the next record that goes comes after those that wait */
  lemma NextIsLater(x: Context, ps: seq<Pending>, n: nat) returns (i: nat)
    requires Consistent(x.view) && n <= |ps| && AllWait(x, ps[..n])
    ensures Later(x, ps, n, Pass(x, ps).0, Pass(x, ps).1, i)
  {
    var done, others := ps[..n], ps[n..];
    assert ps == done + others;
    PassIsShorter(x, ps);
    PassSkipsWaiting(x, done, others);
    PassEnds(x, others);
    i := BehindWaiting(x, done, Pass(x, others).0, Pass(x, others).1);
  }

  lemma BehindWaiting(x: Context, done: seq<Pending>, rest: seq<Pending>, sent: Option<Pending>) returns (i: nat)
    requires AllWait(x, done) && (sent.None? ==> AllWait(x, rest))
    requires sent.Some? ==> exists k: nat :: SentAt(x, rest, k) && rest[k] == sent.value
    ensures if sent.Some? then |done| <= i && SentAt(x, done + rest, i) && (done + rest)[i] == sent.value
            else AllWait(x, done + rest)
  {
    i := 0;
    if sent.Some? {
      var k: nat :| SentAt(x, rest, k) && rest[k] == sent.value;
      i := |done| + k;
      LaterSent(x, done, rest, k);
    }
  }

  lemma LaterSent(x: Context, done: seq<Pending>, rest: seq<Pending>, k: nat)
    requires AllWait(x, done) && SentAt(x, rest, k)
    ensures SentAt(x, done + rest, |done| + k)
  {
    assert (done + rest)[..|done| + k] == done + rest[..k];
  }

  lemma {:induction false} PassIsShorter(x: Context, ps: seq<Pending>)
    ensures |Pass(x, ps).0| <= |ps|
  {
    if ps != [] {
      PassIsShorter(x, ps[1..]);
    }
  }

  /** the form of a record that was refused so far */
  ghost predicate AllMarked(x: Context, sent: seq<Pending>) {
    forall k :: 0 <= k < |sent| ==> RejectedUnchanged(x, sent[k])
  }

  ghost predicate NoneTwice(sent: seq<Pending>) {
    forall i, j :: 0 <= i < j < |sent| ==> sent[i].tag != sent[j].tag
  }

  lemma MarkedMore(x: Context, sent: seq<Pending>, r: Pending)
    requires TagsCommit(x.crypto) && AllMarked(x, sent) && NoneTwice(sent) && !RejectedUnchanged(x, r)
    ensures AllMarked(Marked(x, r), sent + [r]) && NoneTwice(sent + [r])
  {
    forall k | 0 <= k < |sent|
      ensures sent[k].tag != r.tag
    {
      assert RejectedUnchanged(x, sent[k]);
    }
  }

  /** the commit loop goes on behind the records that wait */
  method Again(x: Context, ps: seq<Pending>, ghost n: nat)
    returns (qs: seq<Pending>, commit: Option<Pending>, ghost i: nat)
    requires Consistent(x.view) && n <= |ps| && AllWait(x, ps[..n])
    ensures Later(x, ps, n, qs, commit, i)
  {
    i := NextIsLater(x, ps, n);
    qs, commit := Commit(x, ps);
  }

  /** what was sent since the start: each form once, new at the start, and marked now */
  ghost predicate Exchanged(start: Context, x: Context, sent: seq<Pending>) {
    && x == start.(rejected := x.rejected) && AllMarked(x, sent) && NoneTwice(sent) && OnlyMore(start, x)
    && forall k :: 0 <= k < |sent| ==> !RejectedUnchanged(start, sent[k])
  }

  lemma ExchangedMore(start: Context, x: Context, sent: seq<Pending>, ps: seq<Pending>, i: nat)
    requires TagsCommit(x.crypto) && Exchanged(start, x, sent) && SentAt(x, ps, i)
    ensures Exchanged(start, Marked(x, ps[i]), sent + [ps[i]]) && AllWait(Marked(x, ps[i]), ps[..i + 1])
  {
    MarkedMore(x, sent, ps[i]);
    AllWaitMore(x, ps, i);
    StaysNew(start, x, ps[i]);
  }

  /**
   * The server refuses whatever comes, on one view: the exchange ends, no form goes twice, at most one commit for
   * each record that is left, and every one of them was refused in exactly its form.
   */
  method Refusals(start: Context, pending: seq<Pending>) returns (ps: seq<Pending>, sent: seq<Pending>, x: Context)
    requires Consistent(start.view) && TagsCommit(start.crypto)
    ensures Exchanged(start, x, sent) && AllWait(x, ps) && |sent| <= |ps| <= |pending|
  {
    x, sent := start, [];
    var commit;
    ghost var i;
    ps, commit, i := Again(x, pending, 0);
    while commit.Some?
      invariant Exchanged(start, x, sent) && Later(x, pending, |sent|, ps, commit, i)
      decreases commit.Some?, |ps| - i
    {
      ExchangedMore(start, x, sent, ps, i);
      x, sent := Marked(x, commit.value), sent + [commit.value];
      ps, commit, i := Again(x, ps, i + 1);
    }
  }

  /** marks are added, never lifted */
  ghost predicate OnlyMore(start: Context, x: Context) {
    forall p: Pending :: RejectedUnchanged(start, p) ==> RejectedUnchanged(x, p)
  }

  lemma StaysNew(start: Context, x: Context, r: Pending)
    requires TagsCommit(x.crypto) && OnlyMore(start, x) && !RejectedUnchanged(x, r) && start.crypto == x.crypto
    ensures !RejectedUnchanged(start, r) && OnlyMore(start, Marked(x, r))
  {
  }
}
