/**
 * The list of objects of a chat in two tables: confirmed ones under indexes that never change,
 * own pending ones after them (groupchat/core/object_store.cpp). Every search gives what it would
 * give on one list.
 */
module ObjectStore {
  import opened Common
  import opened Octets

  type ObjectId = OctetVector

  /** a row of either table; its key is its position, counted from one */
  datatype Entry = Entry(id: ObjectId, payload: OctetVector, time: int)

  datatype Stored = Stored(entry: Entry, index: nat, pending: bool)

  /** where an insert put the object, and where it was while pending (0 when it was not) */
  datatype Change = Change(newIndex: nat, oldIndex: nat)

  datatype Order = IndexAscending | IndexDescending | TimeAscending | TimeDescending

  /** start 0 and count 0 leave the search open */
  datatype Search = Search(order: Order, start: nat, count: nat)

  // ---------------------------------------------------------------- searching one list

  /** the entries as objects, at the indexes after the base */
  function Objects(table: seq<Entry>, base: nat, pending: bool): seq<Stored> {
    seq(|table|, i requires 0 <= i < |table| => Stored(table[i], base + i + 1, pending))
  }

  function Cut<T>(s: seq<T>, count: nat): seq<T> {
    if count != 0 && count < |s| then s[..count] else s
  }

  function Reversed<T>(s: seq<T>): seq<T> {
    if s == [] then [] else Reversed(s[1..]) + [s[0]]
  }

  function From<T>(s: seq<T>, start: nat): seq<T> {
    if start == 0 then s else if start - 1 <= |s| then s[start - 1..] else []
  }

  function UpTo<T>(s: seq<T>, start: nat): seq<T> {
    if start == 0 || start > |s| then s else s[..start]
  }

  /** the index search on a list: from the start on, or from the start back, and not more than the count */
  function ByIndex<T>(list: seq<T>, ascending: bool, start: nat, count: nat): seq<T> {
    Cut(if ascending then From(list, start) else Reversed(UpTo(list, start)), count)
  }

  lemma {:induction false} Backwards<T>(s: seq<T>)
    ensures |Reversed(s)| == |s|
    ensures forall j :: 0 <= j < |s| ==> Reversed(s)[j] == s[|s| - 1 - j]
  {
    if s != [] {
      Backwards(s[1..]);
    }
  }

  /** the position of the j-th find, counted from one: on from the start, or back from it */
  function Position(size: nat, ascending: bool, start: nat, j: nat): int {
    if ascending then (if start == 0 then 1 else start) + j
    else (if start == 0 || start > size then size else start) - j
  }

  /**
   * The index search by positions: its finds are at the start and every position after it, or before it, in that
   * order, as far as the list goes and not more than the count.
   */
  lemma ByIndexFinds<T>(list: seq<T>, ascending: bool, start: nat, count: nat)
    ensures var r := ByIndex(list, ascending, start, count);
            && (forall j :: 0 <= j < |r| ==>
                              && 1 <= Position(|list|, ascending, start, j) <= |list|
                              && r[j] == list[Position(|list|, ascending, start, j) - 1])
            && (count != 0 ==> |r| <= count)
            && (count == 0 || |r| < count ==> !(1 <= Position(|list|, ascending, start, |r|) <= |list|))
  {
    if !ascending {
      Backwards(UpTo(list, start));
    }
  }

  /** what is left of a count after some were found */
  function Remaining(count: nat, found: nat): nat
    requires count == 0 || found < count
  {
    if count == 0 then 0 else count - found
  }

  lemma CutJoin<T>(a: seq<T>, b: seq<T>, count: nat)
    ensures var first := Cut(a, count);
            Cut(a + b, count) == if count == 0 || |first| < count then first + Cut(b, Remaining(count, |first|))
                                 else first
  {
    if count != 0 && |a| < count {
      assert Cut(a + b, count) == a + Cut(b, count - |a|);
    } else if count != 0 {
      assert (a + b)[..count] == a[..count];
    }
  }

  lemma {:induction false} ReversedJoin<T>(a: seq<T>, b: seq<T>)
    ensures Reversed(a + b) == Reversed(b) + Reversed(a)
  {
    if a == [] {
      assert a + b == b;
    } else {
      ReversedJoin(a[1..], b);
      assert (a + b)[1..] == a[1..] + b;
    }
  }

  /** the search goes on in the other list until the count is reached */
  function Onward<T>(first: seq<T>, other: seq<T>, ascending: bool, start: nat, count: nat): seq<T> {
    if count == 0 || |first| < count then first + ByIndex(other, ascending, start, Remaining(count, |first|)) else first
  }

  lemma NothingFirst<T>(other: seq<T>, ascending: bool, start: nat, count: nat)
    ensures Onward([], other, ascending, start, count) == ByIndex(other, ascending, start, count)
  {
  }

  /** an ascending search of two lists, one after the other */
  lemma AscendingJoin<T>(a: seq<T>, b: seq<T>, start: nat, count: nat)
    ensures ByIndex(a + b, true, start, count) ==
            if start == 0 || start <= |a| then Onward(ByIndex(a, true, start, count), b, true, 0, count)
            else Onward([], b, true, start - |a|, count)
  {
    if start != 0 && start > |a| {
      NothingFirst(b, true, start - |a|, count);
      assert From(a + b, start) == From(b, start - |a|);
    } else {
      assert From(a + b, start) == From(a, start) + b;
      CutJoin(From(a, start), b, count);
    }
  }

  lemma DescendingJoin<T>(a: seq<T>, b: seq<T>, start: nat, count: nat)
    ensures ByIndex(a + b, false, start, count) ==
            if start == 0 || start > |a|
            then Onward(ByIndex(b, false, if start == 0 then 0 else start - |a|, count), a, false, 0, count)
            else Onward([], a, false, start, count)
  {
    if start != 0 && start <= |a| {
      NothingFirst(a, false, start, count);
      assert UpTo(a + b, start) == UpTo(a, start);
    } else {
      var last := UpTo(b, if start == 0 then 0 else start - |a|);
      assert UpTo(a + b, start) == a + last;
      ReversedJoin(a, last);
      CutJoin(Reversed(last), Reversed(a), count);
    }
  }

  function FirstTable(a: seq<Stored>, b: seq<Stored>, s: Search): seq<Stored> {
    if s.order.IndexAscending? then
      if s.start == 0 || s.start <= |a| then ByIndex(a, true, s.start, s.count) else []
    else
      if s.start == 0 || s.start > |a| then ByIndex(b, false, if s.start == 0 then 0 else s.start - |a|, s.count)
      else []
  }

  /** a start that was in the first table is done with */
  function StartOfSecond(confirmed: nat, s: Search): nat {
    if s.start != 0 && (s.order.IndexAscending? <==> s.start > confirmed) then s.start else 0
  }

  function SecondTable(a: seq<Stored>, b: seq<Stored>, s: Search, first: seq<Stored>): seq<Stored>
    requires s.order.IndexAscending? ==> s.start == 0 || s.start > |a|
  {
    if s.order.IndexAscending? then Onward(first, b, true, if s.start == 0 then 0 else s.start - |a|, s.count)
    else Onward(first, a, false, s.start, s.count)
  }

  /** one table after the other: the search of the two lists put together */
  lemma TwoTables(a: seq<Stored>, b: seq<Stored>, s: Search)
    ensures SecondTable(a, b, s.(start := StartOfSecond(|a|, s)), FirstTable(a, b, s)) ==
            ByIndex(a + b, s.order.IndexAscending?, s.start, s.count)
  {
    if s.order.IndexAscending? {
      AscendingJoin(a, b, s.start, s.count);
    } else {
      DescendingJoin(a, b, s.start, s.count);
    }
  }

  // ---------------------------------------------------------------- the order of time

  predicate Earlier(a: Stored, b: Stored) {
    a.entry.time < b.entry.time || (a.entry.time == b.entry.time && a.index < b.index)
  }

  predicate Before(ascending: bool, a: Stored, b: Stored) {
    if ascending then Earlier(a, b) else Earlier(b, a)
  }

  ghost predicate InOrder(ascending: bool, s: seq<Stored>) {
    forall i, j :: 0 <= i < j < |s| ==> Before(ascending, s[i], s[j])
  }

  /** in the order of time, and a rearrangement */
  ghost predicate SortOf(ascending: bool, list: seq<Stored>, s: seq<Stored>) {
    InOrder(ascending, s) && multiset(s) == multiset(list)
  }

  ghost predicate DistinctIndexes(list: seq<Stored>) {
    forall i, j :: 0 <= i < j < |list| ==> list[i].index != list[j].index
  }

  lemma FirstsAgree(ascending: bool, s: seq<Stored>, t: seq<Stored>)
    requires InOrder(ascending, s) && InOrder(ascending, t) && multiset(s) == multiset(t) && |s| > 0
    ensures |t| > 0 && s[0] == t[0]
  {
    assert s[0] in multiset(t) && |multiset(s)| == |s| && |multiset(t)| == |t|;
    assert t[0] in multiset(s);
    var i :| 0 <= i < |t| && t[i] == s[0];
    var j :| 0 <= j < |s| && s[j] == t[0];
    assert i > 0 ==> Before(ascending, t[0], t[i]);
    assert j > 0 ==> Before(ascending, s[0], s[j]);
  }

  lemma RestsAgree(s: seq<Stored>, t: seq<Stored>)
    requires s != [] && t != [] && s[0] == t[0] && multiset(s) == multiset(t)
    ensures multiset(s[1..]) == multiset(t[1..])
  {
    HasFirst(s);
    HasFirst(t);
    assert multiset(s[1..]) == multiset(s) - multiset{s[0]};
  }

  /** there is one arrangement in the order of time */
  lemma {:induction false} OneSort(ascending: bool, s: seq<Stored>, t: seq<Stored>)
    requires InOrder(ascending, s) && InOrder(ascending, t) && multiset(s) == multiset(t)
    ensures s == t
  {
    if s == [] {
      assert |multiset(t)| == |t| && |multiset(s)| == 0;
    } else {
      FirstsAgree(ascending, s, t);
      RestsAgree(s, t);
      OneSort(ascending, s[1..], t[1..]);
      assert s == [s[0]] + s[1..] && t == [t[0]] + t[1..];
    }
  }

  /** two arrangements merged */
  function Merge(ascending: bool, a: seq<Stored>, b: seq<Stored>): seq<Stored>
    decreases |a| + |b|
  {
    if a == [] then b
    else if b == [] then a
    else if Before(ascending, a[0], b[0]) then [a[0]] + Merge(ascending, a[1..], b)
    else [b[0]] + Merge(ascending, a, b[1..])
  }

  lemma HasFirst(s: seq<Stored>)
    requires s != []
    ensures multiset(s) == multiset{s[0]} + multiset(s[1..])
  {
    assert s == [s[0]] + s[1..];
  }

  lemma {:induction false} MergeHas(ascending: bool, a: seq<Stored>, b: seq<Stored>)
    ensures multiset(Merge(ascending, a, b)) == multiset(a) + multiset(b)
    decreases |a| + |b|
  {
    if a != [] && b != [] {
      if Before(ascending, a[0], b[0]) {
        var rest := Merge(ascending, a[1..], b);
        MergeHas(ascending, a[1..], b);
        HasFirst(a);
        assert multiset([a[0]] + rest) == multiset{a[0]} + multiset(rest);
      } else {
        var rest := Merge(ascending, a, b[1..]);
        MergeHas(ascending, a, b[1..]);
        HasFirst(b);
        assert multiset([b[0]] + rest) == multiset{b[0]} + multiset(rest);
      }
    }
  }

  ghost predicate AllAfter(ascending: bool, x: Stored, s: seq<Stored>) {
    forall y :: y in s ==> Before(ascending, x, y)
  }

  ghost predicate Apart(a: seq<Stored>, b: seq<Stored>) {
    forall x, y :: x in a && y in b ==> x.index != y.index
  }

  lemma OrderedCons(ascending: bool, x: Stored, s: seq<Stored>)
    requires InOrder(ascending, s) && AllAfter(ascending, x, s)
    ensures InOrder(ascending, [x] + s)
  {
    forall i, j | 0 <= i < j < |[x] + s|
      ensures Before(ascending, ([x] + s)[i], ([x] + s)[j])
    {
      assert ([x] + s)[j] == s[j - 1] && s[j - 1] in s;
    }
  }

  lemma AfterFirst(ascending: bool, x: Stored, a: seq<Stored>, b: seq<Stored>)
    requires AllAfter(ascending, x, a) && AllAfter(ascending, x, b)
    ensures AllAfter(ascending, x, Merge(ascending, a, b))
  {
    MergeHas(ascending, a, b);
    forall y | y in Merge(ascending, a, b)
      ensures Before(ascending, x, y)
    {
      assert y in multiset(Merge(ascending, a, b));
      assert y in multiset(a) || y in multiset(b);
    }
  }

  lemma FirstLeads(ascending: bool, s: seq<Stored>)
    requires InOrder(ascending, s) && s != []
    ensures AllAfter(ascending, s[0], s[1..]) && InOrder(ascending, s[1..])
  {
  }

  lemma LeadsOther(ascending: bool, x: Stored, s: seq<Stored>)
    requires InOrder(ascending, s) && s != [] && Before(ascending, x, s[0])
    ensures AllAfter(ascending, x, s)
  {
  }

  lemma {:induction false} MergeInOrder(ascending: bool, a: seq<Stored>, b: seq<Stored>)
    requires InOrder(ascending, a) && InOrder(ascending, b) && Apart(a, b)
    ensures InOrder(ascending, Merge(ascending, a, b))
    decreases |a| + |b|
  {
    if a != [] && b != [] {
      FirstLeads(ascending, a);
      FirstLeads(ascending, b);
      if Before(ascending, a[0], b[0]) {
        MergeInOrder(ascending, a[1..], b);
        LeadsOther(ascending, a[0], b);
        AfterFirst(ascending, a[0], a[1..], b);
        OrderedCons(ascending, a[0], Merge(ascending, a[1..], b));
      } else {
        assert a[0] in a && b[0] in b;
        MergeInOrder(ascending, a, b[1..]);
        LeadsOther(ascending, b[0], a);
        AfterFirst(ascending, b[0], a, b[1..]);
        OrderedCons(ascending, b[0], Merge(ascending, a, b[1..]));
      }
    }
  }

  function Take<T>(s: seq<T>, n: nat): seq<T> {
    if n < |s| then s[..n] else s
  }

  lemma TakeCons<T>(x: T, s: seq<T>, n: nat)
    requires n > 0
    ensures Take([x] + s, n) == [x] + Take(s, n - 1)
  {
  }

  lemma TakeRest<T>(s: seq<T>, n: nat)
    requires s != [] && n > 0
    ensures Take(s, n)[1..] == Take(s[1..], n - 1) && Take(s, n) != [] && Take(s, n)[0] == s[0]
  {
  }

  lemma TakeTake<T>(s: seq<T>, k: nat, n: nat)
    requires n <= k
    ensures Take(Take(s, k), n) == Take(s, n)
  {
  }

  /** the first n of a merge come from the first n of either side */
  lemma {:induction false} TopOfMerge(ascending: bool, a: seq<Stored>, b: seq<Stored>, k: nat, l: nat, n: nat)
    requires n <= k && n <= l
    ensures Take(Merge(ascending, a, b), n) == Take(Merge(ascending, Take(a, k), Take(b, l)), n)
    decreases |a| + |b|
  {
    var a', b' := Take(a, k), Take(b, l);
    if n == 0 {
      assert Take(Merge(ascending, a, b), 0) == [];
      assert Take(Merge(ascending, a', b'), 0) == [];
    } else if a == [] {
      TakeTake(b, l, n);
    } else if b == [] {
      TakeTake(a, k, n);
    } else {
      TakeRest(a, k);
      TakeRest(b, l);
      if Before(ascending, a[0], b[0]) {
        TopOfMerge(ascending, a[1..], b, k - 1, l, n - 1);
        assert Merge(ascending, a', b') == [a[0]] + Merge(ascending, a'[1..], b');
        TakeCons(a[0], Merge(ascending, a[1..], b), n);
        TakeCons(a[0], Merge(ascending, a'[1..], b'), n);
      } else {
        TopOfMerge(ascending, a, b[1..], k, l - 1, n - 1);
        assert Merge(ascending, a', b') == [b[0]] + Merge(ascending, a', b'[1..]);
        TakeCons(b[0], Merge(ascending, a, b[1..]), n);
        TakeCons(b[0], Merge(ascending, a', b'[1..]), n);
      }
    }
  }

  /** the first of each list, sorted together and cut, are the first of both lists sorted together */
  lemma TopOfBoth(ascending: bool, sa: seq<Stored>, sb: seq<Stored>, merged: seq<Stored>, whole: seq<Stored>,
                  count: nat)
    requires InOrder(ascending, sa) && InOrder(ascending, sb) && Apart(sa, sb)
    requires SortOf(ascending, Cut(sa, count) + Cut(sb, count), merged) && SortOf(ascending, sa + sb, whole)
    ensures Cut(merged, count) == Cut(whole, count)
  {
    var ta, tb := Cut(sa, count), Cut(sb, count);
    MergeHas(ascending, sa, sb);
    MergeInOrder(ascending, sa, sb);
    OneSort(ascending, whole, Merge(ascending, sa, sb));
    MergeHas(ascending, ta, tb);
    MergeInOrder(ascending, ta, tb);
    OneSort(ascending, merged, Merge(ascending, ta, tb));
    if count != 0 {
      TopOfMerge(ascending, sa, sb, count, count, count);
    }
  }

  // ---------------------------------------------------------------- sorting

  lemma InsertedInOrder(ascending: bool, s: seq<Stored>, x: Stored, k: nat)
    requires InOrder(ascending, s) && DistinctIndexes(s) && (forall y :: y in s ==> y.index != x.index) && k <= |s|
    requires (forall i :: k <= i < |s| ==> Before(ascending, x, s[i])) && (k > 0 ==> !Before(ascending, x, s[k - 1]))
    ensures var t := s[..k] + [x] + s[k..];
            InOrder(ascending, t) && DistinctIndexes(t)
  {
    var t := s[..k] + [x] + s[k..];
    if k > 0 {
      assert s[k - 1] in s && Before(ascending, s[k - 1], x);
    }
    forall i, j | 0 <= i < j < |t|
      ensures Before(ascending, t[i], t[j]) && t[i].index != t[j].index
    {
      assert t[i] == (if i < k then s[i] else if i == k then x else s[i - 1]);
      assert t[j] == (if j < k then s[j] else if j == k then x else s[j - 1]);
      assert i < k ==> s[i] in s && (i < k - 1 ==> Before(ascending, s[i], s[k - 1]));
      assert j > k ==> s[j - 1] in s;
    }
  }

  /** a place for one more */
  method InsertInOrder(ascending: bool, s: seq<Stored>, x: Stored) returns (t: seq<Stored>)
    requires InOrder(ascending, s) && DistinctIndexes(s) && forall y :: y in s ==> y.index != x.index
    ensures InOrder(ascending, t) && DistinctIndexes(t) && multiset(t) == multiset(s) + multiset{x}
  {
    var k := |s|;
    while k > 0 && Before(ascending, x, s[k - 1])
      invariant 0 <= k <= |s| && forall i :: k <= i < |s| ==> Before(ascending, x, s[i])
    {
      k := k - 1;
    }
    InsertedInOrder(ascending, s, x, k);
    t := s[..k] + [x] + s[k..];
    assert s == s[..k] + s[k..];
  }

  method SortByTime(ascending: bool, list: seq<Stored>) returns (s: seq<Stored>)
    requires DistinctIndexes(list)
    ensures SortOf(ascending, list, s) && DistinctIndexes(s)
  {
    s := [];
    var k := 0;
    while k < |list|
      invariant k <= |list| && SortOf(ascending, list[..k], s) && DistinctIndexes(s)
    {
      forall y | y in s
        ensures y.index != list[k].index
      {
        assert y in multiset(s);
        assert y in list[..k];
      }
      s := InsertInOrder(ascending, s, list[k]);
      assert list[..k + 1] == list[..k] + [list[k]];
      k := k + 1;
    }
    assert list[..k] == list;
  }

  // ---------------------------------------------------------------- the store

  ghost predicate DistinctIds(table: seq<Entry>) {
    forall i, j :: 0 <= i < j < |table| ==> table[i].id != table[j].id
  }

  ghost predicate HasId(table: seq<Entry>, id: ObjectId) {
    exists i :: 0 <= i < |table| && table[i].id == id
  }

  /** the search of one list: what the two tables have to look like */
  ghost predicate Finds(list: seq<Stored>, s: Search, found: seq<Stored>) {
    match s.order
    case IndexAscending => found == ByIndex(list, true, s.start, s.count)
    case IndexDescending => found == ByIndex(list, false, s.start, s.count)
    case TimeAscending => exists sorted :: SortOf(true, list, sorted) && found == Cut(sorted, s.count)
    case TimeDescending => exists sorted :: SortOf(false, list, sorted) && found == Cut(sorted, s.count)
  }

  class ObjectStore {
    var confirmed: seq<Entry>
    var pending: seq<Entry>
    var syncMaxIndex: nat

    ghost predicate Valid()
      reads this
    {
      syncMaxIndex == |confirmed| && DistinctIds(confirmed) && DistinctIds(pending)
    }

    /** the one list: the confirmed objects and after them the pending ones */
    ghost function Listing(): (list: seq<Stored>)
      reads this
      ensures forall i :: 0 <= i < |list| ==> list[i].index == i + 1 && (list[i].pending <==> i >= |confirmed|)
    {
      Objects(confirmed, 0, false) + Objects(pending, |confirmed|, true)
    }

    constructor ()
      ensures Valid() && Listing() == []
    {
      confirmed, pending, syncMaxIndex := [], [], 0;
    }

    /** the key of the object in a table, 0 when it is not there */
    static method KeyOf(table: seq<Entry>, id: ObjectId) returns (key: nat)
      ensures key == 0 <==> !HasId(table, id)
      ensures key != 0 ==> key <= |table| && table[key - 1].id == id
    {
      key := 0;
      var i := 0;
      while i < |table| && key == 0
        invariant i <= |table|
        invariant key == 0 ==> forall j :: 0 <= j < i ==> table[j].id != id
        invariant key != 0 ==> key <= |table| && table[key - 1].id == id
      {
        if table[i].id == id {
          key := i + 1;
        }
        i := i + 1;
      }
    }

    /** take the object out of the pending list, closing the gap; its index there, 0 when absent */
    method UpdatePending(id: ObjectId) returns (index: nat)
      requires Valid()
      modifies this`pending
      ensures Valid() && !HasId(pending, id)
      ensures index == 0 <==> !HasId(old(pending), id)
      ensures index == 0 ==> pending == old(pending)
      ensures index != 0 ==>
                && |confirmed| < index <= |confirmed| + |old(pending)|
                && var p := index - |confirmed| - 1;
                   old(pending)[p].id == id && pending == old(pending)[..p] + old(pending)[p + 1..]
    {
      index := KeyOf(pending, id);
      if index != 0 {
        var p := index - 1;
        pending := pending[..p] + pending[p + 1..];
        index := syncMaxIndex + index;
      }
    }

    /**
     * A confirmed object goes to the end of the confirmed list and leaves the pending one; the same
     * id confirmed twice is refused and nothing changes. A pending one goes to the end of all, once.
     */
    method Insert(entry: Entry, isPending: bool) returns (change: Option<Change>)
      requires Valid()
      modifies this
      ensures Valid() && old(confirmed) <= confirmed
      ensures change.None? <==> !isPending && HasId(old(confirmed), entry.id)
      ensures change.None? ==> confirmed == old(confirmed) && pending == old(pending)
      ensures change.Some? && !isPending ==>
                && confirmed == old(confirmed) + [entry] && change.value.newIndex == |confirmed| &&
                   !HasId(pending, entry.id)
                && (change.value.oldIndex == 0 <==> !HasId(old(pending), entry.id))
                && (change.value.oldIndex == 0 ==> pending == old(pending))
                && (change.value.oldIndex != 0 ==>
                      && |old(confirmed)| < change.value.oldIndex <= |old(Listing())|
                      && var p := change.value.oldIndex - |old(confirmed)| - 1;
                         old(pending)[p].id == entry.id && pending == old(pending)[..p] + old(pending)[p + 1..])
      ensures isPending ==>
                && confirmed == old(confirmed) && change.value.oldIndex == 0
                && pending == (if HasId(old(pending), entry.id) then old(pending) else old(pending) + [entry])
                && |confirmed| < change.value.newIndex <= |Listing()|
                && Listing()[change.value.newIndex - 1].entry.id == entry.id
    {
      if !isPending {
        var known := KeyOf(confirmed, entry.id);
        if known != 0 {
          change := None;
        } else {
          var oldIndex := UpdatePending(entry.id);
          confirmed := confirmed + [entry];
          syncMaxIndex := syncMaxIndex + 1;
          change := Some(Change(|confirmed|, oldIndex));
        }
      } else {
        var key := KeyOf(pending, entry.id);
        if key == 0 {
          pending := pending + [entry];
          key := |pending|;
        }
        change := Some(Change(syncMaxIndex + key, 0));
      }
    }

    method RemovePending(id: ObjectId) returns (removed: bool)
      requires Valid()
      modifies this`pending
      ensures Valid() && !HasId(pending, id) && (removed <==> HasId(old(pending), id))
      ensures !removed ==> pending == old(pending)
      ensures removed ==> exists p :: 0 <= p < |old(pending)| && old(pending)[p].id == id &&
                                      pending == old(pending)[..p] + old(pending)[p + 1..]
    {
      var index := UpdatePending(id);
      removed := index != 0;
    }

    /** rows of a table as the query gives them */
    method Select(table: seq<Entry>, base: nat, isPending: bool, s: Search, found: seq<Stored>)
      returns (all: seq<Stored>)
      requires s.order.IndexAscending? || s.order.IndexDescending?
      ensures all == found + ByIndex(Objects(table, base, isPending), s.order.IndexAscending?, s.start, s.count)
    {
      var rows := ByIndex(Objects(table, base, isPending), s.order.IndexAscending?, s.start, s.count);
      all := found;
      var k := 0;
      while k < |rows|
        invariant k <= |rows| && all == found + rows[..k]
      {
        all := all + [rows[k]];
        k := k + 1;
      }
      assert rows[..k] == rows;
    }

    method GetConfirmed(s: Search, found: seq<Stored>) returns (all: seq<Stored>)
      requires s.order.IndexAscending? || s.order.IndexDescending?
      ensures all == found + ByIndex(Objects(confirmed, 0, false), s.order.IndexAscending?, s.start, s.count)
    {
      all := Select(confirmed, 0, false, s, found);
    }

    method GetPending(s: Search, found: seq<Stored>) returns (all: seq<Stored>)
      requires Valid() && (s.order.IndexAscending? || s.order.IndexDescending?)
      requires (s.start == 0 || s.start > syncMaxIndex)
      ensures all == found + ByIndex(Objects(pending, |confirmed|, true), s.order.IndexAscending?,
                                     if s.start == 0 then 0 else s.start - |confirmed|, s.count)
    {
      all := Select(pending, syncMaxIndex, true, if s.start != 0 then s.(start := s.start - syncMaxIndex)
                                                 else s, found);
    }

    /** the table that the search comes to first; nothing when the start is in the other */
    method GetFirst(search: Search) returns (found: seq<Stored>, s: Search)
      requires Valid() && (search.order.IndexAscending? || search.order.IndexDescending?)
      ensures s == search.(start := StartOfSecond(|confirmed|, search))
      ensures found == FirstTable(Objects(confirmed, 0, false), Objects(pending, |confirmed|, true), search)
    {
      s, found := search, [];
      if s.order.IndexAscending? {
        if s.start == 0 || s.start <= syncMaxIndex {
          found := GetConfirmed(s, found);
          s := s.(start := 0);
        }
      } else if s.start == 0 || s.start > syncMaxIndex {
        found := GetPending(s, found);
        s := s.(start := 0);
      }
    }

    /** the other table, for as many as are still wanted */
    method GetSecond(search: Search, first: seq<Stored>) returns (found: seq<Stored>)
      requires Valid() && (search.order.IndexAscending? || search.order.IndexDescending?)
      requires search.order.IndexAscending? ==> search.start == 0 || search.start > |confirmed|
      ensures found == SecondTable(Objects(confirmed, 0, false), Objects(pending, |confirmed|, true), search, first)
    {
      var s := search;
      found := first;
      if s.count == 0 || |found| < s.count {
        if s.count != 0 {
          s := s.(count := s.count - |found|);
        }
        if s.order.IndexAscending? {
          found := GetPending(s, found);
        } else {
          found := GetConfirmed(s, found);
        }
      }
    }

    method GetByIndex(search: Search) returns (found: seq<Stored>)
      requires Valid() && (search.order.IndexAscending? || search.order.IndexDescending?)
      ensures found == ByIndex(Listing(), search.order.IndexAscending?, search.start, search.count)
    {
      var s;
      found, s := GetFirst(search);
      found := GetSecond(s, found);
      TwoTables(Objects(confirmed, 0, false), Objects(pending, |confirmed|, true), search);
    }

    /** the top of each table, merged and cut */
    method GetByTime(s: Search) returns (found: seq<Stored>)
      requires Valid() && (s.order.TimeAscending? || s.order.TimeDescending?)
      ensures Finds(Listing(), s, found)
    {
      var ascending := s.order.TimeAscending?;
      var a, b := Objects(confirmed, 0, false), Objects(pending, syncMaxIndex, true);
      var sa := SortByTime(ascending, a);
      var sb := SortByTime(ascending, b);
      SortsApart(ascending, a, b, sa, sb);
      CutsDistinct(ascending, sa, sb, s.count);
      var merged := SortByTime(ascending, Cut(sa, s.count) + Cut(sb, s.count));
      found := Cut(merged, s.count);
      ghost var whole := Merge(ascending, sa, sb);
      MergeHas(ascending, sa, sb);
      MergeInOrder(ascending, sa, sb);
      TopOfBoth(ascending, sa, sb, merged, whole, s.count);
      assert SortOf(ascending, Listing(), whole);
    }

    method Get(s: Search) returns (found: seq<Stored>)
      requires Valid()
      ensures Finds(Listing(), s, found)
    {
      if s.order.TimeAscending? || s.order.TimeDescending? {
        found := GetByTime(s);
      } else {
        found := GetByIndex(s);
      }
    }
  }

  /** rearrangements have their indexes from the tables */
  lemma SortsApart(ascending: bool, a: seq<Stored>, b: seq<Stored>, sa: seq<Stored>, sb: seq<Stored>)
    requires SortOf(ascending, a, sa) && SortOf(ascending, b, sb) && Apart(a, b)
    ensures Apart(sa, sb)
  {
    forall x, y | x in sa && y in sb
      ensures x.index != y.index
    {
      assert x in multiset(a) && y in multiset(b);
    }
  }

  lemma CutsDistinct(ascending: bool, sa: seq<Stored>, sb: seq<Stored>, count: nat)
    requires DistinctIndexes(sa) && DistinctIndexes(sb) && Apart(sa, sb)
    ensures DistinctIndexes(Cut(sa, count) + Cut(sb, count))
  {
  }
}
