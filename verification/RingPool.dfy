/**
 The ring pools: get_batch_request/return_batch_request, and the same code once more as
 get_rdma_request_arr/return_rdma_request_arr.

 The class keeps the source's array and its two indices.  `Contents()` is the window from head to
 tail; the ghost ledger remembers what was put in, taken and given back, and `Valid()` keeps the law
 `original + given == taken + Contents()`: service is first in, first out, and nothing is lost.
 */
module RingPool {
  import opened Transfers

  /** Giving back normally succeeds; the source has two error branches. */
  datatype GiveOutcome = Given | TailMetHead | SlotTaken

  lemma NextIndex(i: nat, n: nat)
    requires i < n
    ensures (i + 1) % n == if i + 1 == n then 0 else i + 1
  {
    if i + 1 < n {
      SmallMod(i + 1, n);
    }
  }

  lemma SmallMod(i: nat, n: nat)
    requires i < n
    ensures i % n == i
  {
  }

  /** How far slot i is behind the head, going round. */
  function Offset(size: nat, head: nat, i: nat): (k: nat)
    requires head < size && i < size
    ensures k < size
  {
    if i >= head then i - head else i + size - head
  }

  function Slot(size: nat, head: nat, k: nat): (i: nat)
    requires head < size && k < size
    ensures i < size && Offset(size, head, i) == k
  {
    if head + k < size then head + k else head + k - size
  }

  function Succ(size: nat, i: nat): nat
    requires i < size
  {
    if i + 1 == size then 0 else i + 1
  }

  /** Slots are occupied exactly in the window from head to tail. */
  predicate IsWindow<T>(d: seq<Option<T>>, head: nat, tail: nat) {
    && head < |d| && tail < |d|
    && forall i :: 0 <= i < |d| ==> (d[i].Some? <==> Offset(|d|, head, i) <= Offset(|d|, head, tail))
  }

  function WindowSeq<T>(d: seq<Option<T>>, head: nat, tail: nat): (s: seq<T>)
    requires IsWindow(d, head, tail)
    ensures |s| == Offset(|d|, head, tail) + 1
  {
    seq(Offset(|d|, head, tail) + 1,
        k requires 0 <= k <= Offset(|d|, head, tail) => d[Slot(|d|, head, k)].value)
  }

  lemma TakeWindow<T>(d: seq<Option<T>>, head: nat, tail: nat)
    requires IsWindow(d, head, tail) && head != tail
    ensures IsWindow(d[head := None], Succ(|d|, head), tail)
    ensures WindowSeq(d[head := None], Succ(|d|, head), tail) == WindowSeq(d, head, tail)[1..]
    ensures d[head] == Some(WindowSeq(d, head, tail)[0])
  {
  }

  lemma GiveWindow<T>(d: seq<Option<T>>, head: nat, tail: nat, x: T)
    requires IsWindow(d, head, tail)
    ensures Succ(|d|, tail) == head <==> |WindowSeq(d, head, tail)| == |d|
    ensures Succ(|d|, tail) != head ==> d[Succ(|d|, tail)] == None
    ensures Succ(|d|, tail) != head ==> IsWindow(d[Succ(|d|, tail) := Some(x)], head, Succ(|d|, tail))
    ensures Succ(|d|, tail) != head ==>
              WindowSeq(d[Succ(|d|, tail) := Some(x)], head, Succ(|d|, tail)) == WindowSeq(d, head, tail) + [x]
  {
  }

  lemma LedgerTake<T>(total: seq<T>, taken: seq<T>, contents: seq<T>)
    requires total == taken + contents && contents != []
    ensures total == (taken + [contents[0]]) + contents[1..]
  {
    assert contents == [contents[0]] + contents[1..];
    assert taken + ([contents[0]] + contents[1..]) == (taken + [contents[0]]) + contents[1..];
  }

  lemma LedgerGive<T>(original: seq<T>, given: seq<T>, taken: seq<T>, contents: seq<T>, x: T)
    requires original + given == taken + contents
    ensures original + (given + [x]) == taken + (contents + [x])
  {
    assert original + (given + [x]) == (original + given) + [x];
    assert taken + (contents + [x]) == (taken + contents) + [x];
  }

  class Ring<T(==)> {
    var data: array<Option<T>>
    var head: nat
    var tail: nat
    ghost const original: seq<T>
    ghost var taken: seq<T>
    ghost var given: seq<T>

    ghost function Contents(): (s: seq<T>)
      requires IsWindow(data[..], head, tail)
      reads this, data
      ensures 1 <= |s| <= data.Length
    {
      WindowSeq(data[..], head, tail)
    }

    ghost predicate Valid()
      reads this, data
    {
      && data.Length == |original|
      && IsWindow(data[..], head, tail)
      && original + given == taken + Contents()
    }

    /** Records handed out and not given back. */
    ghost function Held(): multiset<T>
      reads this
    {
      multiset(taken) - multiset(given)
    }

    /** Only records that were out have been given back. */
    ghost predicate Legitimate()
      reads this
    {
      multiset(given) <= multiset(taken)
    }

    constructor (items: seq<T>)
      requires items != []
      ensures Valid() && Legitimate() && fresh(data)
      ensures Contents() == items == original && Held() == multiset{}
    {
      data := new Option<T>[|items|](i requires 0 <= i < |items| => Some(items[i]));
      head := 0;
      tail := |items| - 1;
      original := items;
      taken, given := [], [];
    }

    /** The pool refuses to hand out its last record. */
    method Take() returns (r: Option<T>)
      requires Valid()
      modifies this`head, this`taken, data
      ensures Valid() && data == old(data) && tail == old(tail) && given == old(given)
      ensures |old(Contents())| <= 1 ==> r == None && Contents() == old(Contents()) && taken == old(taken)
      ensures |old(Contents())| > 1 ==>
                && r == Some(old(Contents())[0])
                && Contents() == old(Contents())[1..]
                && taken == old(taken) + [old(Contents())[0]]
    {
      ghost var was := Contents();
      if head == tail {
        r := None;
      } else {
        TakeWindow(data[..], head, tail);
        LedgerTake(original + given, taken, was);
        NextIndex(head, data.Length);
        ghost var cells, next := data[..][head := None], Succ(data.Length, head);
        r := data[head];
        data[head] := None;
        assert data[..] == cells;
        head := (head + 1) % data.Length;
        assert head == next;
        taken := taken + [was[0]];
      }
    }

    method Give(x: T) returns (outcome: GiveOutcome)
      requires Valid()
      modifies this`tail, this`given, data
      ensures Valid() && data == old(data) && head == old(head) && taken == old(taken)
      ensures |old(Contents())| == |original| ==>
                outcome == TailMetHead && Contents() == old(Contents()) && given == old(given)
      ensures |old(Contents())| < |original| ==>
                outcome == Given && Contents() == old(Contents()) + [x] && given == old(given) + [x]
      ensures old(Legitimate()) && x in old(Held()) ==> outcome == Given && Legitimate()
    {
      ghost var was := Contents();
      GiveWindow(data[..], head, tail, x);
      GiveHasRoom(original, taken, given, was, x);
      LedgerGive(original, given, taken, was, x);
      NextIndex(tail, data.Length);
      var newTail := (tail + 1) % data.Length;
      if newTail == head {
        outcome := TailMetHead;
      } else if data[newTail].Some? {
        outcome := SlotTaken;
      } else {
        ghost var cells := data[..][newTail := Some(x)];
        data[newTail] := Some(x);
        tail := newTail;
        given := given + [x];
        outcome := Given;
        assert data[..] == cells;
      }
    }
  }

  /** What the ledger law says about numbers and about copies of each record. */
  lemma LedgerCounts<T>(original: seq<T>, taken: seq<T>, given: seq<T>, contents: seq<T>)
    requires original + given == taken + contents
    requires multiset(given) <= multiset(taken)
    ensures multiset(original) == multiset(contents) + (multiset(taken) - multiset(given))
    ensures |original| == |contents| + |multiset(taken) - multiset(given)|
  {
    assert multiset(original + given) == multiset(taken + contents);
    assert multiset(original) + multiset(given) == multiset(taken) + multiset(contents);
    var held := multiset(taken) - multiset(given);
    forall x ensures multiset(original)[x] == (multiset(contents) + held)[x] {
      assert (multiset(original) + multiset(given))[x] == (multiset(taken) + multiset(contents))[x];
    }
    assert |multiset(original)| == |multiset(contents)| + |held|;
  }

  lemma GiveHasRoom<T>(original: seq<T>, taken: seq<T>, given: seq<T>, contents: seq<T>, x: T)
    requires original + given == taken + contents
    ensures multiset(given) <= multiset(taken) && x in multiset(taken) - multiset(given) ==>
              && |contents| < |original|
              && multiset(given + [x]) <= multiset(taken)
  {
    if multiset(given) <= multiset(taken) && x in multiset(taken) - multiset(given) {
      LedgerCounts(original, taken, given, contents);
      assert multiset(given + [x]) == multiset(given) + multiset{x};
    }
  }

  predicate Distinct<T(==)>(s: seq<T>) {
    forall i, j :: 0 <= i < j < |s| ==> s[i] != s[j]
  }

  lemma {:induction false} DistinctCounts<T>(s: seq<T>, x: T)
    requires Distinct(s)
    ensures multiset(s)[x] <= 1
  {
    if s != [] {
      var init, last := s[..|s| - 1], s[|s| - 1];
      assert s == init + [last];
      DistinctCounts(init, x);
      if x == last {
        assert x !in init;
      }
    }
  }

  /** Conservation: while only outstanding records come back, every record is in the ring or held,
      never both and never twice, and at least one always stays in the ring. */
  lemma PoolConservation<T>(original: seq<T>, taken: seq<T>, given: seq<T>, contents: seq<T>, x: T)
    requires Distinct(original) && contents != []
    requires original + given == taken + contents
    requires multiset(given) <= multiset(taken)
    ensures multiset(contents)[x] + (multiset(taken) - multiset(given))[x] == if x in original then 1 else 0
    ensures |multiset(taken) - multiset(given)| <= |original| - 1
  {
    LedgerCounts(original, taken, given, contents);
    DistinctCounts(original, x);
    assert multiset(original)[x] == multiset(contents)[x] + (multiset(taken) - multiset(given))[x];
    assert x in original <==> multiset(original)[x] > 0;
  }

  // ---------------------------------------------------------------- counting

  function Upto(n: nat): (u: set<nat>)
    ensures |u| == n && forall r: nat :: r in u <==> r < n
  {
    if n == 0 then {} else Upto(n - 1) + {n - 1}
  }

  function Elements(s: seq<nat>): (e: set<nat>)
    ensures forall r :: r in e <==> r in s
    ensures Distinct(s) ==> |e| == |s|
  {
    if s == [] then {} else
    assert s == s[..|s| - 1] + [s[|s| - 1]];
    Elements(s[..|s| - 1]) + {s[|s| - 1]}
  }

  lemma StrictlySmaller(a: set<nat>, b: set<nat>)
    requires a < b
    ensures |a| < |b|
  {
    assert b == a + (b - a);
  }

  /** Distinct numbers below n that miss one of them are fewer than n. */
  lemma MissingOne(s: seq<nat>, n: nat, gap: nat)
    requires Distinct(s) && gap < n && gap !in s && forall r :: r in s ==> r < n
    ensures |s| < n
  {
    assert gap in Upto(n) && gap !in Elements(s);
    StrictlySmaller(Elements(s), Upto(n));
  }
}
