/**
 The device in MODE_SYNC: rmem_request_sync with its in-place work request array, the fast builder
 simple_make_wr, merge_wr, and poll_cq.

 The adapter is part of the object: `sendq` holds posted work requests that have not completed, `cq`
 completions that have not been reaped.  When completions arrive is not up to the driver, so
 `arrivals` lists how many land at each poll; once it is used up, everything posted completes.
 */
module SyncDevice {
  import opened Transfers
  import opened BlockLayer
  import opened Batching
  import opened Verbs

  /** A request ended successfully, stamped with how much had been reaped by then. */
  datatype Ended = Ended(id: nat, reapedBefore: nat)

  function Stamp(ids: seq<nat>, reaped: nat): (es: seq<Ended>)
    ensures |es| == |ids|
  {
    seq(|ids|, i requires 0 <= i < |ids| => Ended(ids[i], reaped))
  }

  const POLL_LIMIT: nat := 10

  class Device {
    const ctx: Context
    const max: nat
    const cqe: nat
    const merge: bool
    const simplePoll: bool
    const wrs: array<SendWr>
    const sges: array<Sge>
    const blkReq: array<nat>
    var rdmaReqCount: nat
    var outstanding: nat
    var sendq: seq<Wire>
    var cq: seq<Wire>
    var arrivals: seq<nat>
    ghost var batches: Batches
    ghost var flushes: seq<seq<Wire>>
    ghost var executed: seq<Wire>
    ghost var reaped: seq<Wire>
    ghost var ended: seq<Ended>
    ghost var failed: seq<nat>

    ghost predicate Shape()
      reads this
    {
      && 1 <= max == wrs.Length == sges.Length == blkReq.Length
      && max <= cqe < U64
    }

    /** Between segments: the pending slots hold the pending transfers and the adapter is quiet. */
    ghost predicate Valid()
      reads this, wrs, sges
    {
      && Shape()
      && Holds(ctx, wrs[..], sges[..], batches.pending)
      && rdmaReqCount == |batches.pending| < max
      && sendq == [] && cq == [] && reaped == executed
    }

    constructor (ctx: Context, max: nat, cqe: nat, merge: bool, simplePoll: bool, blank: SendWr, zero: Sge)
      requires 1 <= max <= cqe < U64
      ensures Valid() && fresh(wrs) && fresh(sges) && fresh(blkReq)
      ensures this.ctx == ctx && this.max == max && this.merge == merge
      ensures batches == Batches([], []) && flushes == [] && reaped == [] && ended == []
    {
      this.ctx, this.max, this.cqe, this.merge, this.simplePoll := ctx, max, cqe, merge, simplePoll;
      wrs := new SendWr[max](i => blank.(sgList := Some(i), numSge := 1, signaled := true, rkey := ctx.remRkey));
      sges := new Sge[max](i => zero.(lkey := ctx.lkey));
      blkReq := new nat[max](_ => 0);
      rdmaReqCount, outstanding := 0, 0;
      sendq, cq, arrivals := [], [], [];
      batches := Batches([], []);
      flushes, executed, reaped, ended, failed := [], [], [], [], [];
    }

    // -------------------------------------------------------------- the adapter

    method PostSend()
      requires EndsWithin(wrs[..], sges[..], Some(0), wrs.Length)
      modifies this`sendq, this`flushes
      ensures sendq == old(sendq) + Chain(wrs[..], sges[..], Some(0), wrs.Length)
      ensures flushes == old(flushes) + [Chain(wrs[..], sges[..], Some(0), wrs.Length)]
    {
      var at: Option<nat> := Some(0);
      var batch: seq<Wire> := [];
      ghost var fuel: nat := wrs.Length;
      while at.Some?
        invariant EndsWithin(wrs[..], sges[..], at, fuel)
        invariant batch + Chain(wrs[..], sges[..], at, fuel) == Chain(wrs[..], sges[..], Some(0), wrs.Length)
        decreases fuel
      {
        ghost var rest := Chain(wrs[..], sges[..], wrs[at.value].next, fuel - 1);
        var wire := WireAt(wrs[..], sges[..], at.value);
        assert batch + ([wire] + rest) == (batch + [wire]) + rest;
        batch := batch + [wire];
        at := wrs[at.value].next;
        fuel := fuel - 1;
      }
      assert batch == Chain(wrs[..], sges[..], Some(0), wrs.Length);
      sendq := sendq + batch;
      flushes := flushes + [batch];
    }

    /** Completions land in posting order; the driver gets at most `limit` of them. */
    method IbPollCq(limit: nat) returns (got: seq<Wire>)
      requires |sendq| + |cq| <= cqe
      modifies this`sendq, this`cq, this`arrivals, this`executed
      ensures |got| <= limit && |got| + |cq| + |sendq| == |old(cq)| + |old(sendq)|
      ensures executed + sendq == old(executed) + old(sendq)
      ensures forall r: seq<Wire> :: r + old(cq) == old(executed) ==> (r + got) + cq == executed
      ensures got == [] && limit > 0 ==> cq == []
      ensures old(arrivals) == [] ==> arrivals == [] && sendq == []
      ensures old(arrivals) != [] ==> |arrivals| < |old(arrivals)|
    {
      var n := |sendq|;
      if arrivals != [] {
        n := if arrivals[0] < n then arrivals[0] else n;
        arrivals := arrivals[1..];
      }
      executed := executed + sendq[..n];
      cq := cq + sendq[..n];
      sendq := sendq[n..];
      var take := if |cq| < limit then |cq| else limit;
      got := cq[..take];
      cq := cq[take..];
    }

    // -------------------------------------------------------------- poll_cq

    /** The bulk subtraction of SIMPLE_POLL and the loop it replaces, on an unsigned counter. */
    method Account(count: nat)
      requires count <= outstanding < U64
      modifies this`outstanding
      ensures outstanding == old(outstanding) - count
    {
      if simplePoll {
        outstanding := (outstanding - count) % U64;
      } else {
        var i := 0;
        while i < count
          invariant i <= count && outstanding == old(outstanding) - i
        {
          outstanding := (outstanding - 1) % U64;
          i := i + 1;
        }
      }
    }

    /** The inner loop of poll_cq: reap until a poll comes back empty. */
    method Reap()
      requires outstanding == |sendq| + |cq| <= cqe < U64
      requires reaped + cq == executed
      modifies this`sendq, this`cq, this`arrivals, this`executed, this`outstanding, this`reaped
      ensures cq == [] && outstanding == |sendq| <= cqe
      ensures reaped == executed && executed + sendq == old(executed) + old(sendq)
      ensures |arrivals| < |old(arrivals)| || (arrivals == [] && sendq == [])
    {
      var got := IbPollCq(POLL_LIMIT);
      while got != []
        invariant (reaped + got) + cq == executed && executed + sendq == old(executed) + old(sendq)
        invariant outstanding == |got| + |sendq| + |cq| <= cqe
        invariant got == [] ==> cq == []
        invariant |arrivals| < |old(arrivals)| || (arrivals == [] && sendq == [])
        decreases |arrivals|, outstanding
      {
        Account(|got|);
        reaped := reaped + got;
        got := IbPollCq(POLL_LIMIT);
      }
      assert (reaped + []) + [] == reaped;
    }

    /** Busy-waits until the counter is zero; then nothing posted is left anywhere. */
    method PollCq()
      requires outstanding == |sendq| + |cq| <= cqe < U64
      requires reaped + cq == executed
      modifies this`sendq, this`cq, this`arrivals, this`executed, this`outstanding, this`reaped
      ensures outstanding == 0 && sendq == [] && cq == []
      ensures reaped == executed == old(executed) + old(sendq)
    {
      Reap();
      while outstanding > 0
        invariant cq == [] && outstanding == |sendq| <= cqe
        invariant reaped == executed && executed + sendq == old(executed) + old(sendq)
        decreases |arrivals|, outstanding
      {
        assert reaped + cq == executed;
        Reap();
      }
    }

    // -------------------------------------------------------------- building and flushing

    /** Writes only the fields that differ between requests; the link keeps its old value. */
    method SimpleMakeWr(slot: nat, t: Transfer)
      requires slot < wrs.Length == sges.Length
      modifies wrs, sges
      ensures wrs[..] == old(wrs[..])[slot := Rewritten(ctx, old(wrs[slot]), t)]
      ensures sges[..] == old(sges[..])[slot := Sge(t.local, t.len, old(sges[slot]).lkey)]
    {
      sges[slot] := sges[slot].(addr := t.local, length := t.len);
      wrs[slot] := wrs[slot].(wrId := 0, opcode := t.op, remoteAddr := (ctx.remVaddr + t.remote) % U64);
    }

    method MergeWr(older: nat, newer: nat) returns (merged: bool)
      requires older < wrs.Length == sges.Length && newer < wrs.Length
      modifies sges
      ensures merged == Mergeable(Slotted(old(wrs[older]), old(sges[older])), Slotted(old(wrs[newer]), old(sges[newer])))
      ensures sges[..] == if merged
                          then old(sges[..])[older := old(sges[older]).(length := (old(sges[older]).length + old(sges[newer]).length) % U32)]
                          else old(sges[..])
    {
      if && wrs[older].opcode == wrs[newer].opcode
         && (sges[older].addr + sges[older].length) % U64 == sges[newer].addr
         && (wrs[older].remoteAddr + sges[older].length) % U64 == wrs[newer].remoteAddr
      {
        sges[older] := sges[older].(length := (sges[older].length + sges[newer].length) % U32);
        merged := true;
      } else {
        merged := false;
      }
    }

    /** What has been flushed since a drain began. */
    ghost predicate Logged(flushes0: seq<seq<Wire>>, reaped0: seq<Wire>)
      reads this
    {
      && flushes == flushes0 + WireBatches(ctx, batches.sent)
      && reaped == reaped0 + Wires(ctx, Flatten(batches.sent), 0)
    }

    /** Terminates the list, posts it and waits for all of it. */
    method Flush(ghost flushes0: seq<seq<Wire>>, ghost reaped0: seq<Wire>)
      requires Shape() && Holds(ctx, wrs[..], sges[..], batches.pending)
      requires 1 <= rdmaReqCount == |batches.pending| <= max
      requires sendq == [] && cq == [] && reaped == executed
      requires Logged(flushes0, reaped0)
      modifies this`rdmaReqCount, this`outstanding, this`sendq, this`cq, this`arrivals, this`executed,
               this`reaped, this`flushes, this`batches, wrs
      ensures Valid() && Logged(flushes0, reaped0) && outstanding == 0
      ensures batches == Batches(old(batches).sent + [old(batches).pending], [])
    {
      ghost var p := batches.pending;
      HoldsTerminated(ctx, wrs[..], sges[..], p);
      ghost var cells := Terminated(wrs[..], rdmaReqCount);
      wrs[rdmaReqCount - 1] := wrs[rdmaReqCount - 1].(next := None);
      assert wrs[..] == cells;
      outstanding := rdmaReqCount;
      PostSend();
      assert sendq == Wires(ctx, p, 0);
      PollCq();
      rdmaReqCount := 0;
      FlushLogged(ctx, flushes0, reaped0, batches.sent, p);
      batches := Batches(batches.sent + [p], []);
    }

    /** Builds the segment in the next slot, then merges it into the slot before or links it on. */
    method PlaceSegment(t: Transfer)
      requires Valid()
      modifies this`rdmaReqCount, this`batches, wrs, sges
      ensures Holds(ctx, wrs[..], sges[..], batches.pending) && 1 <= rdmaReqCount == |batches.pending| <= max
      ensures batches == old(batches).(pending := Coalesce(merge, old(batches).pending, At(ctx.remVaddr, t)))
    {
      ghost var p, placed := batches.pending, At(ctx.remVaddr, t);
      var n := rdmaReqCount;
      SimpleMakeWr(n, t);
      HoldsWritten(ctx, old(wrs[..]), old(sges[..]), p, t);
      var merged := false;
      if merge && n > 0 {
        ghost var before := sges[..];
        merged := MergeWr(n - 1, n);
        HoldsMerged(ctx, wrs[..], before, p, placed);
      }
      if !merged {
        HoldsAppended(ctx, wrs[..], sges[..], p, placed);
        if n > 0 {
          wrs[n - 1] := wrs[n - 1].(next := Some(n));
        }
        rdmaReqCount := n + 1;
      }
      batches := batches.(pending := Coalesce(merge, p, placed));
    }

    /** One turn of the segment loop. */
    method AddSegment(t: Transfer, ghost flushes0: seq<seq<Wire>>, ghost reaped0: seq<Wire>)
      requires Valid() && Logged(flushes0, reaped0)
      modifies this`rdmaReqCount, this`outstanding, this`sendq, this`cq, this`arrivals, this`executed,
               this`reaped, this`flushes, this`batches, wrs, sges
      ensures Valid() && Logged(flushes0, reaped0)
      ensures batches == SyncAdd(merge, max, old(batches), At(ctx.remVaddr, t))
    {
      PlaceSegment(t);
      if rdmaReqCount >= max {
        Flush(flushes0, reaped0);
      }
    }

    // -------------------------------------------------------------- the drain

    /** The batches are what the transfers seen so far lead to. */
    ghost predicate Seen(ts: seq<Transfer>)
      reads this
    {
      batches == SyncRun(merge, max, AllAt(ctx.remVaddr, ts))
    }

    method WalkSegment(b: Bio, i: nat, sector: nat, ghost seen: seq<Transfer>, ghost flushes0: seq<seq<Wire>>, ghost reaped0: seq<Wire>)
      returns (sector': nat)
      requires i < |b.segs| && sector == SectorAt(b, i)
      requires Valid() && Logged(flushes0, reaped0) && Seen(seen + BioPrefix(Exact, b, i))
      modifies this`rdmaReqCount, this`outstanding, this`sendq, this`cq, this`arrivals, this`executed,
               this`reaped, this`flushes, this`batches, wrs, sges
      ensures Valid() && Logged(flushes0, reaped0) && Seen(seen + BioPrefix(Exact, b, i + 1))
      ensures sector' == SectorAt(b, i + 1)
    {
      var t := Transfer(Direction(b), b.segs[i].addr, sector * SECTOR, CurBytes(b));
      SeenSegment(merge, max, ctx.remVaddr, seen, b, i, t);
      AddSegment(t, flushes0, reaped0);
      sector' := sector + CurBytes(b) / SECTOR;
    }

    method WalkBio(b: Bio, ghost seen: seq<Transfer>, ghost flushes0: seq<seq<Wire>>, ghost reaped0: seq<Wire>)
      requires Valid() && Logged(flushes0, reaped0) && Seen(seen)
      modifies this`rdmaReqCount, this`outstanding, this`sendq, this`cq, this`arrivals, this`executed,
               this`reaped, this`flushes, this`batches, wrs, sges
      ensures Valid() && Logged(flushes0, reaped0) && Seen(seen + BioTransfers(Exact, b))
    {
      var sector := b.sector;
      var i := 0;
      assert seen + BioPrefix(Exact, b, 0) == seen;
      while i < |b.segs|
        invariant i <= |b.segs| && sector == SectorAt(b, i)
        invariant Valid() && Logged(flushes0, reaped0) && Seen(seen + BioPrefix(Exact, b, i))
      {
        sector := WalkSegment(b, i, sector, seen, flushes0, reaped0);
        i := i + 1;
      }
    }

    method WalkRequest(bios: seq<Bio>, ghost seen: seq<Transfer>, ghost flushes0: seq<seq<Wire>>, ghost reaped0: seq<Wire>)
      requires Valid() && Logged(flushes0, reaped0) && Seen(seen)
      modifies this`rdmaReqCount, this`outstanding, this`sendq, this`cq, this`arrivals, this`executed,
               this`reaped, this`flushes, this`batches, wrs, sges
      ensures Valid() && Logged(flushes0, reaped0) && Seen(seen + BiosTransfers(Exact, bios))
    {
      var j := 0;
      assert bios[..0] == [] && seen + [] == seen;
      while j < |bios|
        invariant j <= |bios|
        invariant Valid() && Logged(flushes0, reaped0) && Seen(seen + BiosTransfers(Exact, bios[..j]))
      {
        ghost var before := BiosTransfers(Exact, bios[..j]);
        BioPrefixes(Exact, bios, j);
        assert (seen + before) + BioTransfers(Exact, bios[j]) == seen + (before + BioTransfers(Exact, bios[j]));
        WalkBio(bios[j], seen + before, flushes0, reaped0);
        j := j + 1;
      }
      assert bios[..j] == bios;
    }

    /** Filesystem requests are remembered and walked, others are failed at once. */
    method FetchOne(r: Request, count: nat, ghost seen: seq<Transfer>, ghost flushes0: seq<seq<Wire>>, ghost reaped0: seq<Wire>)
      returns (count': nat)
      requires Valid() && Logged(flushes0, reaped0) && Seen(seen)
      requires count <= max && (r.Fs? ==> count < max)
      modifies this`rdmaReqCount, this`outstanding, this`sendq, this`cq, this`arrivals, this`executed,
               this`reaped, this`flushes, this`batches, this`failed, wrs, sges, blkReq
      ensures Valid() && Logged(flushes0, reaped0) && Seen(seen + RequestTransfers(Exact, r))
      ensures count' == (if r.Fs? then count + 1 else count)
      ensures blkReq[..count'] == old(blkReq[..count]) + (if r.Fs? then [r.id] else [])
      ensures failed == old(failed) + (if r.Fs? then [] else [r.id])
    {
      count' := count;
      match r {
        case Other(id) =>
          failed := failed + [id];
          assert seen + [] == seen;
        case Fs(id, bios) =>
          blkReq[count] := id;
          count' := count + 1;
          WalkRequest(bios, seen, flushes0, reaped0);
      }
    }

    method FetchAll(q: seq<Request>, ghost flushes0: seq<seq<Wire>>, ghost reaped0: seq<Wire>) returns (count: nat)
      requires Valid() && Logged(flushes0, reaped0) && Seen([])
      requires |FsIds(q)| <= max
      modifies this`rdmaReqCount, this`outstanding, this`sendq, this`cq, this`arrivals, this`executed,
               this`reaped, this`flushes, this`batches, this`failed, wrs, sges, blkReq
      ensures Valid() && Logged(flushes0, reaped0) && Seen(QueueTransfers(Exact, q))
      ensures count == |FsIds(q)| && blkReq[..count] == FsIds(q)
      ensures failed == old(failed) + OtherIds(q)
    {
      count := 0;
      var i := 0;
      while i < |q|
        invariant i <= |q| && count == |FsIds(q[..i])| <= max && blkReq[..count] == FsIds(q[..i])
        invariant Valid() && Logged(flushes0, reaped0) && Seen(QueueTransfers(Exact, q[..i]))
        invariant failed == old(failed) + OtherIds(q[..i])
      {
        Prefixes(Exact, q, i);
        QueuePrefix(Exact, q, i + 1);
        count := FetchOne(q[i], count, QueueTransfers(Exact, q[..i]), flushes0, reaped0);
        i := i + 1;
      }
      assert q[..i] == q;
    }

    method EndAll(count: nat, ghost ids: seq<nat>)
      requires count == |ids| <= blkReq.Length && blkReq[..count] == ids
      modifies this`ended
      ensures ended == old(ended) + Stamp(ids, |reaped|)
    {
      var i := 0;
      while i < count
        invariant i <= count
        invariant ended == old(ended) + Stamp(ids[..i], |reaped|)
      {
        assert blkReq[i] == blkReq[..count][i];
        assert Stamp(ids[..i + 1], |reaped|) == Stamp(ids[..i], |reaped|) + [Ended(blkReq[i], |reaped|)];
        ended := ended + [Ended(blkReq[i], |reaped|)];
        i := i + 1;
      }
      assert ids[..i] == ids;
    }

    /** rmem_request_sync. */
    method RequestSync(q: seq<Request>)
      requires Valid() && rdmaReqCount == 0
      requires |FsIds(q)| <= max
      modifies this`rdmaReqCount, this`outstanding, this`sendq, this`cq, this`arrivals, this`executed,
               this`reaped, this`flushes, this`batches, this`failed, this`ended, wrs, sges, blkReq
      ensures Valid() && rdmaReqCount == 0
      ensures var bs := Flushed(SyncRun(merge, max, AllAt(ctx.remVaddr, QueueTransfers(Exact, q))));
              && flushes == old(flushes) + WireBatches(ctx, bs)
              && executed == reaped == old(reaped) + Wires(ctx, Flatten(bs), 0)
      ensures ended == old(ended) + Stamp(FsIds(q), |reaped|)
      ensures failed == old(failed) + OtherIds(q)
    {
      ghost var flushes0, reaped0 := flushes, reaped;
      batches := Batches([], []);
      var count := FetchAll(q, flushes0, reaped0);
      if rdmaReqCount > 0 {
        Flush(flushes0, reaped0);
      }
      EndAll(count, FsIds(q));
    }
  }

  lemma SeenOneMore(merge: bool, max: nat, base: nat, ts: seq<Transfer>, t: Transfer)
    ensures SyncRun(merge, max, AllAt(base, ts + [t])) == SyncAdd(merge, max, SyncRun(merge, max, AllAt(base, ts)), At(base, t))
  {
    var all := AllAt(base, ts + [t]);
    assert all[..|all| - 1] == AllAt(base, ts) && all[|all| - 1] == At(base, t);
  }

  lemma SeenSegment(merge: bool, max: nat, base: nat, seen: seq<Transfer>, b: Bio, i: nat, t: Transfer)
    requires i < |b.segs| && t == SegmentTransfer(Exact, b, i)
    ensures SyncRun(merge, max, AllAt(base, seen + BioPrefix(Exact, b, i + 1))) ==
            SyncAdd(merge, max, SyncRun(merge, max, AllAt(base, seen + BioPrefix(Exact, b, i))), At(base, t))
  {
    SeenOneMore(merge, max, base, seen + BioPrefix(Exact, b, i), t);
    assert (seen + BioPrefix(Exact, b, i)) + [t] == seen + BioPrefix(Exact, b, i + 1);
  }

  function Rewritten(ctx: Context, wr: SendWr, t: Transfer): SendWr {
    wr.(wrId := 0, opcode := t.op, remoteAddr := (ctx.remVaddr + t.remote) % U64)
  }

  function Slotted(wr: SendWr, sge: Sge): Transfer {
    Transfer(wr.opcode, sge.addr, wr.remoteAddr, sge.length)
  }

  lemma FlushLogged(ctx: Context, flushes0: seq<seq<Wire>>, reaped0: seq<Wire>, sent: seq<seq<Transfer>>, p: seq<Transfer>)
    ensures flushes0 + WireBatches(ctx, sent + [p]) == flushes0 + WireBatches(ctx, sent) + [Wires(ctx, p, 0)]
    ensures reaped0 + Wires(ctx, Flatten(sent + [p]), 0) == reaped0 + Wires(ctx, Flatten(sent), 0) + Wires(ctx, p, 0)
  {
    FlattenSnoc(sent, p);
    assert WireBatches(ctx, sent + [p]) == WireBatches(ctx, sent) + [Wires(ctx, p, 0)];
    assert Wires(ctx, Flatten(sent + [p]), 0) == Wires(ctx, Flatten(sent), 0) + Wires(ctx, p, 0);
  }

  function Terminated(wrs: seq<SendWr>, n: nat): seq<SendWr>
    requires 1 <= n <= |wrs|
  {
    wrs[n - 1 := wrs[n - 1].(next := None)]
  }

  lemma HoldsTerminated(ctx: Context, wrs: seq<SendWr>, sges: seq<Sge>, p: seq<Transfer>)
    requires Holds(ctx, wrs, sges, p) && p != []
    ensures Holds(ctx, Terminated(wrs, |p|), sges, [])
    ensures EndsWithin(Terminated(wrs, |p|), sges, Some(0), |wrs|)
    ensures Chain(Terminated(wrs, |p|), sges, Some(0), |wrs|) == Wires(ctx, p, 0)
  {
    var cells := Terminated(wrs, |p|);
    assert Holds(ctx, cells, sges, p);
    ChainIsPending(ctx, cells, sges, p, 0, |wrs|);
    assert Wires(ctx, p, 0)[0..] == Wires(ctx, p, 0);
  }

  /** Slot |p| now holds `t` as make_wr would have built it, except for a stale link. */
  predicate Staged(ctx: Context, wrs: seq<SendWr>, sges: seq<Sge>, p: seq<Transfer>, t: Transfer) {
    && Holds(ctx, wrs, sges, p)
    && |p| < |wrs|
    && wrs[|p|].(next := None) == MakeWr(ctx, |p|, t, 0)
    && sges[|p|] == MakeSge(ctx, t)
  }

  lemma HoldsWritten(ctx: Context, wrs: seq<SendWr>, sges: seq<Sge>, p: seq<Transfer>, t: Transfer)
    requires Holds(ctx, wrs, sges, p) && |p| < |wrs|
    ensures Staged(ctx, wrs[|p| := Rewritten(ctx, wrs[|p|], t)], sges[|p| := Sge(t.local, t.len, sges[|p|].lkey)],
                   p, At(ctx.remVaddr, t))
  {
  }

  lemma HoldsMerged(ctx: Context, wrs: seq<SendWr>, sges: seq<Sge>, p: seq<Transfer>, t: Transfer)
    requires Staged(ctx, wrs, sges, p, t) && p != []
    ensures Slotted(wrs[|p| - 1], sges[|p| - 1]) == p[|p| - 1]
    ensures Slotted(wrs[|p|], sges[|p|]) == t
    ensures Mergeable(p[|p| - 1], t) ==>
              Holds(ctx, wrs, sges[|p| - 1 := sges[|p| - 1].(length := (sges[|p| - 1].length + t.len) % U32)],
                    Coalesce(true, p, t))
  {
    var plain := MakeWr(ctx, |p| - 1, p[|p| - 1], 0);
    assert wrs[|p| - 1].(next := None).opcode == plain.opcode;
    assert wrs[|p| - 1].(next := None).remoteAddr == plain.remoteAddr;
    assert wrs[|p|].(next := None).opcode == t.op;
    assert wrs[|p|].(next := None).remoteAddr == t.remote;
  }

  lemma HoldsAppended(ctx: Context, wrs: seq<SendWr>, sges: seq<Sge>, p: seq<Transfer>, t: Transfer)
    requires Staged(ctx, wrs, sges, p, t)
    ensures Holds(ctx, if p == [] then wrs else wrs[|p| - 1 := wrs[|p| - 1].(next := Some(|p|))], sges, p + [t])
  {
    var n, p' := |p|, p + [t];
    var cells := if p == [] then wrs else wrs[n - 1 := wrs[n - 1].(next := Some(n))];
    assert Preset(ctx, cells, sges);
    forall i | 0 <= i < n + 1 ensures cells[i].(next := None) == MakeWr(ctx, i, p'[i], 0) && sges[i] == MakeSge(ctx, p'[i]) {
      assert cells[i].(next := None) == wrs[i].(next := None);
      assert i < n ==> p'[i] == p[i];
    }
  }
}
