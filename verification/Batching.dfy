/**
 How a stream of transfers is coalesced and cut into batches, as a fold over the stream.

 `Coalesce` is the step all drains share: extend the newest transfer or append a new one.  The sync
 drain flushes when `max` transfers are pending (`SyncAdd`), the async drain never does (`AsyncRun`),
 and the one-at-a-time drain keeps a single pending transfer and posts the previous one (`OneRun`).
 */
module Batching {
  import opened Transfers
  import opened BlockLayer

  function Coalesce(merge: bool, pending: seq<Transfer>, t: Transfer): (p: seq<Transfer>)
    ensures |p| == |pending| || |p| == |pending| + 1
    ensures p != []
  {
    if merge && pending != [] && Mergeable(pending[|pending| - 1], t) then
      pending[..|pending| - 1] + [Merged(pending[|pending| - 1], t)]
    else
      pending + [t]
  }

  lemma {:induction false} CoalesceKeepsMoves(merge: bool, pending: seq<Transfer>, t: Transfer)
    requires AllSound(pending) && Sound(t)
    requires merge ==> Bytes(pending) + t.len < U32
    ensures AllMoves(Coalesce(merge, pending, t)) == AllMoves(pending) + Moves(t)
    ensures Bytes(Coalesce(merge, pending, t)) == Bytes(pending) + t.len
    ensures AllSound(Coalesce(merge, pending, t))
  {
    AllMovesSnoc(pending, t);
    if merge && pending != [] && Mergeable(pending[|pending| - 1], t) {
      var init, last := pending[..|pending| - 1], pending[|pending| - 1];
      MergeKeepsMovesIff(last, t);
      AllMovesSnoc(init, Merged(last, t));
      assert AllMoves(init) + (Moves(last) + Moves(t)) == (AllMoves(init) + Moves(last)) + Moves(t);
    }
  }

  /** No two neighbours could have been merged. */
  predicate Separate(ts: seq<Transfer>) {
    forall i :: 0 < i < |ts| ==> !Mergeable(ts[i - 1], ts[i])
  }

  lemma CoalesceKeepsSeparate(pending: seq<Transfer>, t: Transfer)
    requires Separate(pending)
    ensures Separate(Coalesce(true, pending, t))
  {
  }

  // ---------------------------------------------------------------- the sync drain

  datatype Batches = Batches(sent: seq<seq<Transfer>>, pending: seq<Transfer>)

  function SyncAdd(merge: bool, max: nat, b: Batches, t: Transfer): Batches {
    var p := Coalesce(merge, b.pending, t);
    if |p| >= max then Batches(b.sent + [p], []) else Batches(b.sent, p)
  }

  function SyncRun(merge: bool, max: nat, ts: seq<Transfer>): Batches {
    if ts == [] then Batches([], [])
    else SyncAdd(merge, max, SyncRun(merge, max, ts[..|ts| - 1]), ts[|ts| - 1])
  }

  /** Everything a drain flushes, the leftover batch included. */
  function Flushed(b: Batches): seq<seq<Transfer>> {
    if b.pending == [] then b.sent else b.sent + [b.pending]
  }

  function Flatten(bs: seq<seq<Transfer>>): seq<Transfer> {
    if bs == [] then [] else Flatten(bs[..|bs| - 1]) + bs[|bs| - 1]
  }

  lemma FlattenSnoc(bs: seq<seq<Transfer>>, b: seq<Transfer>)
    ensures Flatten(bs + [b]) == Flatten(bs) + b
  {
    assert (bs + [b])[..|bs + [b]| - 1] == bs;
  }

  function Stream(b: Batches): seq<Transfer> {
    Flatten(b.sent) + b.pending
  }

  lemma StreamIsFlushed(b: Batches)
    ensures Flatten(Flushed(b)) == Stream(b)
  {
    if b.pending == [] {
      assert Stream(b) == Flatten(b.sent);
    } else {
      FlattenSnoc(b.sent, b.pending);
    }
  }

  lemma SoundPrefix(ts: seq<Transfer>)
    requires ts != []
    requires AllSound(ts)
    ensures AllSound(ts[..|ts| - 1]) && Sound(ts[|ts| - 1])
    ensures Bytes(ts) == Bytes(ts[..|ts| - 1]) + ts[|ts| - 1].len
  {
  }

  /** The flush either moves the batch or does nothing: the stream does not notice. */
  lemma SyncAddStream(merge: bool, max: nat, b: Batches, t: Transfer)
    ensures Stream(SyncAdd(merge, max, b, t)) == Flatten(b.sent) + Coalesce(merge, b.pending, t)
  {
    var p := Coalesce(merge, b.pending, t);
    FlattenSnoc(b.sent, p);
    if |p| >= max {
      assert Stream(SyncAdd(merge, max, b, t)) == Flatten(b.sent + [p]);
    }
  }

  lemma Regroup<T>(a: seq<T>, b: seq<T>, c: seq<T>)
    ensures a + (b + c) == (a + b) + c
  {
  }

  lemma SyncAddKeepsMoves(merge: bool, max: nat, b: Batches, t: Transfer)
    requires AllSound(b.pending) && Sound(t) && (merge ==> Bytes(b.pending) + t.len < U32)
    ensures AllMoves(Stream(SyncAdd(merge, max, b, t))) == AllMoves(Stream(b)) + Moves(t)
    ensures AllSound(SyncAdd(merge, max, b, t).pending)
    ensures Bytes(SyncAdd(merge, max, b, t).pending) <= Bytes(b.pending) + t.len
  {
    var p := Coalesce(merge, b.pending, t);
    CoalesceKeepsMoves(merge, b.pending, t);
    SyncAddStream(merge, max, b, t);
    AllMovesConcat(Flatten(b.sent), b.pending);
    AllMovesConcat(Flatten(b.sent), p);
    Regroup(AllMoves(Flatten(b.sent)), AllMoves(b.pending), Moves(t));
  }

  /** Batching and merging move exactly the bytes of the input stream, in its order. */
  lemma {:induction false} SyncRunKeepsMoves(merge: bool, max: nat, ts: seq<Transfer>)
    requires AllSound(ts) && (merge ==> Bytes(ts) < U32)
    ensures AllMoves(Stream(SyncRun(merge, max, ts))) == AllMoves(ts)
    ensures AllSound(SyncRun(merge, max, ts).pending)
    ensures Bytes(SyncRun(merge, max, ts).pending) <= Bytes(ts)
  {
    if ts == [] {
      assert Stream(SyncRun(merge, max, ts)) == [];
    } else {
      SoundPrefix(ts);
      SyncRunKeepsMoves(merge, max, ts[..|ts| - 1]);
      SyncAddKeepsMoves(merge, max, SyncRun(merge, max, ts[..|ts| - 1]), ts[|ts| - 1]);
    }
  }

  /** The sync drain's flushed batches, run in order, change every memory as the input stream does. */
  lemma {:induction false} SyncPreservesMeaning(merge: bool, max: nat, ts: seq<Transfer>, w: World)
    requires AllSound(ts) && (merge ==> Bytes(ts) < U32)
    ensures Same(CarryAll(w, Flatten(Flushed(SyncRun(merge, max, ts)))), CarryAll(w, ts))
  {
    SyncRunKeepsMoves(merge, max, ts);
    StreamIsFlushed(SyncRun(merge, max, ts));
    SameMovesSameEffect(w, Stream(SyncRun(merge, max, ts)), ts);
  }

  /** 1 to max work requests and, with merging on, no neighbours that could still be merged. */
  predicate BatchOk(merge: bool, max: nat, p: seq<Transfer>) {
    1 <= |p| <= max && (merge ==> Separate(p))
  }

  predicate BatchesOk(merge: bool, max: nat, b: Batches) {
    && (forall i :: 0 <= i < |b.sent| ==> BatchOk(merge, max, b.sent[i]) && |b.sent[i]| == max)
    && |b.pending| < max
    && (merge ==> Separate(b.pending))
  }

  lemma SyncAddOk(merge: bool, max: nat, b: Batches, t: Transfer)
    requires BatchesOk(merge, max, b)
    ensures BatchesOk(merge, max, SyncAdd(merge, max, b, t))
  {
    if merge {
      CoalesceKeepsSeparate(b.pending, t);
    }
  }

  lemma {:induction false} SyncRunOk(merge: bool, max: nat, ts: seq<Transfer>)
    requires max >= 1
    ensures BatchesOk(merge, max, SyncRun(merge, max, ts))
  {
    if ts != [] {
      SyncRunOk(merge, max, ts[..|ts| - 1]);
      SyncAddOk(merge, max, SyncRun(merge, max, ts[..|ts| - 1]), ts[|ts| - 1]);
    }
  }

  /** Every flush of a drain posts 1 to max work requests, merged as far as its batch allows, and every
      flush but the last posts exactly max. */
  lemma {:induction false} SyncBatchSizes(merge: bool, max: nat, ts: seq<Transfer>)
    requires max >= 1
    ensures forall i :: 0 <= i < |Flushed(SyncRun(merge, max, ts))| ==>
                          BatchOk(merge, max, Flushed(SyncRun(merge, max, ts))[i])
    ensures forall i :: 0 <= i < |Flushed(SyncRun(merge, max, ts))| - 1 ==>
                          |Flushed(SyncRun(merge, max, ts))[i]| == max
  {
    SyncRunOk(merge, max, ts);
  }

  /** All flushed batches full, and together with the pending ones they are `n` transfers. */
  predicate Cut(max: nat, b: Batches, n: nat) {
    && (forall i :: 0 <= i < |b.sent| ==> |b.sent[i]| == max)
    && n == |b.sent| * max + |b.pending|
    && |b.pending| < max
  }

  lemma UnmergedAdd(max: nat, b: Batches, t: Transfer, n: nat)
    requires Cut(max, b, n)
    ensures Cut(max, SyncAdd(false, max, b, t), n + 1)
    ensures Stream(SyncAdd(false, max, b, t)) == Stream(b) + [t]
  {
    SyncAddStream(false, max, b, t);
    OneMoreTime(|b.sent|, max);
  }

  /** Without merging: all batches but the last are full, nothing is reordered or lost. */
  lemma {:induction false} UnmergedBatches(max: nat, ts: seq<Transfer>)
    requires max >= 1
    ensures Stream(SyncRun(false, max, ts)) == ts
    ensures Cut(max, SyncRun(false, max, ts), |ts|)
  {
    if ts == [] {
      assert Stream(SyncRun(false, max, ts)) == [];
    } else {
      UnmergedBatches(max, ts[..|ts| - 1]);
      UnmergedAdd(max, SyncRun(false, max, ts[..|ts| - 1]), ts[|ts| - 1], |ts| - 1);
    }
  }

  /** Without merging the number of flushes is the number of segments over max, rounded up. */
  lemma {:induction false} UnmergedFlushCount(max: nat, ts: seq<Transfer>)
    requires max >= 1
    ensures |Flushed(SyncRun(false, max, ts))| == (|ts| + max - 1) / max
  {
    UnmergedBatches(max, ts);
    var b := SyncRun(false, max, ts);
    RoundUp(|b.sent|, |b.pending|, max);
  }

  lemma RoundUp(n: nat, r: nat, d: nat)
    requires d > 0 && r < d
    ensures (n * d + r + d - 1) / d == if r == 0 then n else n + 1
  {
    if r == 0 {
      DivideRest(n, d - 1, d);
    } else {
      OneMoreTime(n, d);
      DivideRest(n + 1, r - 1, d);
    }
  }

  lemma OneMoreTime(k: nat, d: nat)
    ensures (k + 1) * d == k * d + d
  {
  }

  lemma AtLeastOnce(k: nat, d: nat)
    requires k >= 1
    ensures k * d >= d
  {
  }

  lemma DivideRest(q: nat, r: nat, d: nat)
    requires d > 0 && r < d
    ensures (q * d + r) / d == q
  {
    var x, s := (q * d + r) / d, (q * d + r) % d;
    assert x * d + s == q * d + r;
    assert (x - q) * d == r - s;
    if x != q {
      AtLeastOnce(if x > q then x - q else q - x, d);
    }
  }

  // ---------------------------------------------------------------- the deferred drains

  function AsyncRun(merge: bool, ts: seq<Transfer>): seq<Transfer> {
    if ts == [] then [] else Coalesce(merge, AsyncRun(merge, ts[..|ts| - 1]), ts[|ts| - 1])
  }

  lemma {:induction false} RunOneMore(merge: bool, ts: seq<Transfer>, us: seq<Transfer>, t: Transfer)
    requires us == ts + [t]
    ensures AsyncRun(merge, us) == Coalesce(merge, AsyncRun(merge, ts), t)
  {
    assert us[..|us| - 1] == ts;
  }

  lemma {:induction false} AsyncRunKeepsMoves(merge: bool, ts: seq<Transfer>)
    requires AllSound(ts) && (merge ==> Bytes(ts) < U32)
    ensures AllMoves(AsyncRun(merge, ts)) == AllMoves(ts)
    ensures AllSound(AsyncRun(merge, ts)) && Bytes(AsyncRun(merge, ts)) == Bytes(ts)
  {
    if ts != [] {
      SoundPrefix(ts);
      AsyncRunKeepsMoves(merge, ts[..|ts| - 1]);
      CoalesceKeepsMoves(merge, AsyncRun(merge, ts[..|ts| - 1]), ts[|ts| - 1]);
    }
  }

  /** With merging on, the array is merged as far as it goes; with merging off it is the stream itself. */
  lemma {:induction false} AsyncRunShape(merge: bool, ts: seq<Transfer>)
    ensures if merge then Separate(AsyncRun(true, ts)) else AsyncRun(false, ts) == ts
  {
    if ts != [] {
      AsyncRunShape(merge, ts[..|ts| - 1]);
      if merge {
        CoalesceKeepsSeparate(AsyncRun(true, ts[..|ts| - 1]), ts[|ts| - 1]);
      }
    }
  }

  /** rmem_request_one merges always, and only inside one request. */
  function OneRun(requests: seq<seq<Transfer>>): seq<Transfer> {
    if requests == [] then [] else
    OneRun(requests[..|requests| - 1]) + AsyncRun(true, requests[|requests| - 1])
  }

  lemma {:induction false} OneRunKeepsMoves(requests: seq<seq<Transfer>>)
    requires AllSound(Flatten(requests)) && forall i :: 0 <= i < |requests| ==> Bytes(requests[i]) < U32
    ensures AllMoves(OneRun(requests)) == AllMoves(Flatten(requests))
  {
    if requests != [] {
      var init, last := requests[..|requests| - 1], requests[|requests| - 1];
      assert Flatten(requests) == Flatten(init) + last;
      AllMovesConcat(Flatten(init), last);
      assert AllSound(Flatten(init)) by {
        assert forall i :: 0 <= i < |Flatten(init)| ==> Flatten(init)[i] == Flatten(requests)[i];
      }
      assert AllSound(last) by {
        assert forall i :: 0 <= i < |last| ==> last[i] == Flatten(requests)[|Flatten(init)| + i];
      }
      OneRunKeepsMoves(init);
      AsyncRunKeepsMoves(true, last);
      AllMovesConcat(OneRun(init), AsyncRun(true, last));
    }
  }

  lemma {:induction false} PerRequestFlat(q: seq<Request>)
    ensures Flatten(PerRequest(q)) == QueueTransfers(Rounded, q)
  {
    if q != [] {
      PerRequestFlat(q[..|q| - 1]);
      assert PerRequest(q[..|q| - 1]) + [] == PerRequest(q[..|q| - 1]);
      if q[|q| - 1].Fs? {
        FlattenSnoc(PerRequest(q[..|q| - 1]), BiosTransfers(Rounded, q[|q| - 1].bios));
      }
    }
  }
}
