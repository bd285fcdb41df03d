/**
 The device as a disk.

 Here the effect of a drain is told without work requests: a write bio puts the bytes of its segments,
 one after the other, at 512 times its sector number in the server's region and touches nothing else; a
 read bio fetches the bytes from there into its segments and touches nothing else.  Every drain of every
 mode does just that for its bios, in order, and so a read returns what was written, however the two
 were cut into bios.
 */
module Disk {
  import opened Transfers
  import opened BlockLayer
  import opened Batching
  import opened Region

  /** The local address of byte o of the segments, taken back to back. */
  function ByteAt(segs: seq<Segment>, o: nat): nat
    requires o < TotalLen(segs)
  {
    var init, last := segs[..|segs| - 1], segs[|segs| - 1];
    if o < TotalLen(init) then ByteAt(init, o) else last.addr + (o - TotalLen(init))
  }

  /** No later byte of the segments has the address of byte o. */
  ghost predicate Final(segs: seq<Segment>, o: nat)
    requires o < TotalLen(segs)
  {
    forall p: nat :: o < p < TotalLen(segs) ==> ByteAt(segs, p) != ByteAt(segs, o)
  }

  /** The last of the first k bytes that has address a. */
  function LastByte(segs: seq<Segment>, k: nat, a: int): Option<nat>
    requires k <= TotalLen(segs)
  {
    if k == 0 then None
    else if ByteAt(segs, k - 1) == a then Some(k - 1)
    else LastByte(segs, k - 1, a)
  }

  /** Byte o has address a, and none of the bytes after it up to k does. */
  ghost predicate IsLast(segs: seq<Segment>, k: nat, a: int, o: nat)
    requires k <= TotalLen(segs)
  {
    o < k && ByteAt(segs, o) == a && forall p: nat :: o < p < k ==> ByteAt(segs, p) != a
  }

  lemma {:induction false} LastByteIff(segs: seq<Segment>, k: nat, a: int, o: nat)
    requires k <= TotalLen(segs)
    ensures LastByte(segs, k, a) == Some(o) <==> IsLast(segs, k, a, o)
  {
    if k > 0 {
      LastByteIff(segs, k - 1, a, o);
      if ByteAt(segs, k - 1) == a {
        assert IsLast(segs, k, a, o) ==> o == k - 1;
      } else {
        assert IsLast(segs, k, a, o) <==> IsLast(segs, k - 1, a, o);
      }
    }
  }

  /** What a disk whose sector 0 is at remote address `base` does with one bio. */
  ghost predicate Served(base: nat, b: Bio, w: World, v: World) {
    var start, n := base + 512 * b.sector, TotalLen(b.segs);
    if b.write then
      && (forall a: int :: v.local(a) == w.local(a))
      && (forall a: int :: v.remote(a) == if start <= a < start + n then w.local(ByteAt(b.segs, a - start)) else w.remote(a))
    else
      && (forall a: int :: v.remote(a) == w.remote(a))
      && (forall a: int :: v.local(a) == Fetched(b.segs, n, a, start, w))
  }

  /** The byte at local address a once the first k bytes were fetched from remote address `start` on. */
  function Fetched(segs: seq<Segment>, k: nat, a: int, start: nat, w: World): int
    requires k <= TotalLen(segs)
  {
    match LastByte(segs, k, a)
    case None => w.local(a)
    case Some(o) => w.remote(start + o)
  }

  // ---------------------------------------------------------------- the byte moves of a bio

  function BioMoves(base: nat, b: Bio): (ms: seq<Move>)
    ensures |ms| == TotalLen(b.segs)
  {
    seq(TotalLen(b.segs), o requires 0 <= o < TotalLen(b.segs) =>
      Move(if b.write then Write else Read, ByteAt(b.segs, o), base + 512 * b.sector + o))
  }

  /** A bio without its last segment. */
  function Shorter(b: Bio): Bio
    requires b.segs != []
  {
    b.(segs := b.segs[..|b.segs| - 1])
  }

  lemma {:induction false} LastTransfer(b: Bio)
    requires b.segs != []
    ensures BioTransfers(Reference, b) == BioTransfers(Reference, Shorter(b)) + [SegmentTransfer(Reference, b, |b.segs| - 1)]
  {
    forall i | 0 <= i < |b.segs| - 1 ensures SegmentTransfer(Reference, Shorter(b), i) == SegmentTransfer(Reference, b, i) {
      assert Shorter(b).segs[..i] == b.segs[..i];
    }
  }

  lemma {:induction false} ReferenceMoves(b: Bio)
    ensures AllMoves(BioTransfers(Reference, b)) == BioMoves(0, b)
    decreases |b.segs|
  {
    if b.segs != [] {
      ReferenceMoves(Shorter(b));
      LastTransfer(b);
      AllMovesSnoc(BioTransfers(Reference, Shorter(b)), SegmentTransfer(Reference, b, |b.segs| - 1));
      LastSegmentMoves(b);
    }
  }

  lemma {:induction false} LastSegmentMoves(b: Bio)
    requires b.segs != []
    ensures BioMoves(0, b) == BioMoves(0, Shorter(b)) + Moves(SegmentTransfer(Reference, b, |b.segs| - 1))
  {
  }

  lemma {:induction false} BioMovesAt(base: nat, b: Bio)
    ensures MovesAt(base, BioMoves(0, b)) == BioMoves(base, b)
  {
  }

  lemma {:induction false} MovesOfBio(base: nat, limit: nat, b: Bio)
    requires Below(base, limit, BioTransfers(Reference, b))
    ensures AllMoves(AllAt(base, BioTransfers(Reference, b))) == BioMoves(base, b)
  {
    ReferenceMoves(b);
    AllMovesAt(base, limit, BioTransfers(Reference, b));
    BioMovesAt(base, b);
  }

  lemma {:induction false} WriteMoves(base: nat, b: Bio, w: World, k: nat)
    requires b.write && k <= TotalLen(b.segs)
    ensures var v, start := StepAll(w, BioMoves(base, b)[..k]), base + 512 * b.sector;
            && (forall a: int :: v.local(a) == w.local(a))
            && (forall a: int :: v.remote(a) == if start <= a < start + k then w.local(ByteAt(b.segs, a - start)) else w.remote(a))
  {
    if k > 0 {
      WriteMoves(base, b, w, k - 1);
      assert BioMoves(base, b)[..k][..k - 1] == BioMoves(base, b)[..k - 1];
    }
  }

  lemma {:induction false} ReadMoves(base: nat, b: Bio, w: World, k: nat)
    requires !b.write && k <= TotalLen(b.segs)
    ensures var v, start := StepAll(w, BioMoves(base, b)[..k]), base + 512 * b.sector;
            && (forall a: int :: v.remote(a) == w.remote(a))
            && (forall a: int :: v.local(a) == Fetched(b.segs, k, a, start, w))
  {
    if k > 0 {
      ReadMoves(base, b, w, k - 1);
      assert BioMoves(base, b)[..k][..k - 1] == BioMoves(base, b)[..k - 1];
    }
  }

  lemma {:induction false} MovesServe(base: nat, b: Bio, w: World)
    ensures Served(base, b, w, StepAll(w, BioMoves(base, b)))
  {
    var n := TotalLen(b.segs);
    assert BioMoves(base, b)[..n] == BioMoves(base, b);
    if b.write {
      WriteMoves(base, b, w, n);
    } else {
      ReadMoves(base, b, w, n);
    }
  }

  // ---------------------------------------------------------------- queues

  /** The bios of the filesystem requests of a queue, in order. */
  function Bios(q: seq<Request>): seq<Bio> {
    if q == [] then [] else Bios(q[..|q| - 1]) + (if q[|q| - 1].Fs? then q[|q| - 1].bios else [])
  }

  lemma {:induction false} BiosTransfersConcat(how: Reading, a: seq<Bio>, b: seq<Bio>)
    ensures BiosTransfers(how, a + b) == BiosTransfers(how, a) + BiosTransfers(how, b)
  {
    if b == [] {
      assert a + b == a;
    } else {
      assert (a + b)[..|a + b| - 1] == a + b[..|b| - 1];
      BiosTransfersConcat(how, a, b[..|b| - 1]);
      Regroup(BiosTransfers(how, a), BiosTransfers(how, b[..|b| - 1]), BioTransfers(how, b[|b| - 1]));
    }
  }

  lemma {:induction false} QueueIsBios(how: Reading, q: seq<Request>)
    ensures QueueTransfers(how, q) == BiosTransfers(how, Bios(q))
  {
    if q != [] {
      var last := q[|q| - 1];
      QueueIsBios(how, q[..|q| - 1]);
      BiosTransfersConcat(how, Bios(q[..|q| - 1]), if last.Fs? then last.bios else []);
    }
  }

  /** The worlds before the first bio, between bios, and after the last. */
  ghost predicate History(base: nat, bs: seq<Bio>, ws: seq<World>) {
    |ws| == |bs| + 1 && forall i :: 0 <= i < |bs| ==> Served(base, bs[i], ws[i], ws[i + 1])
  }

  lemma {:induction false} BiosServe(base: nat, limit: nat, bs: seq<Bio>, w: World) returns (ws: seq<World>)
    requires Below(base, limit, BiosTransfers(Reference, bs))
    ensures History(base, bs, ws) && ws[0] == w
    ensures ws[|bs|] == StepAll(w, AllMoves(AllAt(base, BiosTransfers(Reference, bs))))
  {
    if bs == [] {
      ws := [w];
    } else {
      var init, b := bs[..|bs| - 1], bs[|bs| - 1];
      var ts, us := BiosTransfers(Reference, init), BioTransfers(Reference, b);
      BelowParts(base, limit, ts, us);
      var before := BiosServe(base, limit, init, w);
      AllAtConcat(base, ts, us);
      AllMovesConcat(AllAt(base, ts), AllAt(base, us));
      MovesOfBio(base, limit, b);
      StepAllConcat(w, AllMoves(AllAt(base, ts)), BioMoves(base, b));
      MovesServe(base, b, before[|init|]);
      ws := before + [StepAll(before[|init|], BioMoves(base, b))];
    }
  }

  lemma BelowParts(base: nat, limit: nat, ts: seq<Transfer>, us: seq<Transfer>)
    requires Below(base, limit, ts + us)
    ensures Below(base, limit, ts) && Below(base, limit, us)
  {
    assert forall i :: 0 <= i < |ts| ==> ts[i] == (ts + us)[i];
    assert forall i :: 0 <= i < |us| ==> us[i] == (ts + us)[|ts| + i];
  }

  // ---------------------------------------------------------------- the drains

  datatype Mode = Sync(max: nat) | Async | One

  /** What a drain puts on the wire. */
  function Drained(m: Mode, merge: bool, base: nat, q: seq<Request>): seq<Transfer> {
    match m
    case Sync(max) => SyncStream(merge, max, base, q)
    case Async => AsyncStream(merge, base, q)
    case One => OneStream(base, q)
  }

  /** What the driver takes for granted: equal whole-sector segments, addresses in the region, and merged
      lengths of less than 2^32. */
  ghost predicate Drainable(m: Mode, merge: bool, base: nat, limit: nat, q: seq<Request>) {
    && Regular(q) && Within(0, limit, QueueTransfers(Reference, q)) && base + limit < U64
    && AllSound(QueueTransfers(Reference, q))
    && (if m.One? then forall i :: 0 <= i < |PerRequest(q)| ==> Bytes(PerRequest(q)[i]) < U32
        else merge ==> Bytes(QueueTransfers(Reference, q)) < U32)
  }

  lemma {:induction false} DrainedAlike(m: Mode, merge: bool, base: nat, limit: nat, q: seq<Request>, w: World)
    requires Drainable(m, merge, base, limit, q)
    ensures Same(CarryAll(w, Drained(m, merge, base, q)), CarryAll(w, AllAt(base, QueueTransfers(Reference, q))))
  {
    ModesAgree(q, merge, if m.Sync? then m.max else 0, base, limit, w);
  }

  /** Every drain of every mode serves the bios of its queue one after the other, as a disk does. */
  lemma {:induction false} DrainServesBios(m: Mode, merge: bool, base: nat, limit: nat, q: seq<Request>, w: World)
    returns (ws: seq<World>)
    requires Drainable(m, merge, base, limit, q)
    ensures History(base, Bios(q), ws) && ws[0] == w
    ensures Same(ws[|Bios(q)|], CarryAll(w, Drained(m, merge, base, q)))
  {
    DrainedAlike(m, merge, base, limit, q, w);
    QueueIsBios(Reference, q);
    var ts := QueueTransfers(Reference, q);
    AllAtWithin(base, limit, ts);
    ws := BiosServe(base, limit, Bios(q), w);
    CarryAllIsStepAll(w, AllAt(base, ts));
  }

  // ---------------------------------------------------------------- how bios are cut does not matter

  lemma {:induction false} TotalLenConcat(xs: seq<Segment>, ys: seq<Segment>)
    ensures TotalLen(xs + ys) == TotalLen(xs) + TotalLen(ys)
  {
    if ys == [] {
      assert xs + ys == xs;
    } else {
      assert (xs + ys)[..|xs + ys| - 1] == xs + ys[..|ys| - 1];
      TotalLenConcat(xs, ys[..|ys| - 1]);
    }
  }

  /** A bio cut at a sector boundary is the same as the two pieces. */
  lemma {:induction false} SplitBio(write: bool, s: nat, xs: seq<Segment>, ys: seq<Segment>)
    requires TotalLen(xs) % 512 == 0
    ensures BioTransfers(Reference, Bio(write, s, xs + ys)) ==
            BioTransfers(Reference, Bio(write, s, xs)) + BioTransfers(Reference, Bio(write, s + TotalLen(xs) / 512, ys))
  {
    var whole := BioTransfers(Reference, Bio(write, s, xs + ys));
    var left, right := BioTransfers(Reference, Bio(write, s, xs)), BioTransfers(Reference, Bio(write, s + TotalLen(xs) / 512, ys));
    forall i | 0 <= i < |whole| ensures whole[i] == (left + right)[i] {
      if i < |xs| {
        assert (xs + ys)[..i] == xs[..i];
      } else {
        assert (xs + ys)[..i] == xs + ys[..i - |xs|];
        TotalLenConcat(xs, ys[..i - |xs|]);
      }
    }
  }

  function Joined(bs: seq<Bio>): seq<Segment> {
    if bs == [] then [] else Joined(bs[..|bs| - 1]) + bs[|bs| - 1].segs
  }

  /** The bios go in one direction and lie back to back from sector s on. */
  ghost predicate BackToBack(write: bool, s: nat, bs: seq<Bio>) {
    bs == [] ||
    var init, b := bs[..|bs| - 1], bs[|bs| - 1];
    && BackToBack(write, s, init) && b.write == write
    && b.sector == s + TotalLen(Joined(init)) / 512 && TotalLen(b.segs) % 512 == 0
  }

  lemma {:induction false} StretchGrows(write: bool, s: nat, xs: seq<Segment>, b: Bio)
    requires b.write == write && TotalLen(xs) % 512 == 0 && b.sector == s + TotalLen(xs) / 512 && TotalLen(b.segs) % 512 == 0
    ensures BioTransfers(Reference, Bio(write, s, xs + b.segs)) ==
            BioTransfers(Reference, Bio(write, s, xs)) + BioTransfers(Reference, b)
    ensures TotalLen(xs + b.segs) % 512 == 0
  {
    SplitBio(write, s, xs, b.segs);
    assert b == Bio(write, s + TotalLen(xs) / 512, b.segs);
    TotalLenConcat(xs, b.segs);
  }

  /** However a stretch of the disk is cut into bios, the transfers are those of one bio. */
  lemma {:induction false} CuttingDoesNotMatter(write: bool, s: nat, bs: seq<Bio>)
    requires BackToBack(write, s, bs)
    ensures BiosTransfers(Reference, bs) == BioTransfers(Reference, Bio(write, s, Joined(bs)))
    ensures TotalLen(Joined(bs)) % 512 == 0
  {
    if bs != [] {
      var init, b := bs[..|bs| - 1], bs[|bs| - 1];
      CuttingDoesNotMatter(write, s, init);
      StretchGrows(write, s, Joined(init), b);
    }
  }

  lemma {:induction false} ServedSame(base: nat, b: Bio, w: World, v: World, u: World)
    requires Served(base, b, w, v) && Same(v, u)
    ensures Served(base, b, w, u)
  {
  }

  /** A drain of a stretch of the disk, in any mode and however cut, has the effect of one bio. */
  lemma {:induction false} StretchServed(m: Mode, merge: bool, base: nat, limit: nat, id: nat, bs: seq<Bio>, write: bool, s: nat, w: World)
    requires Drainable(m, merge, base, limit, [Fs(id, bs)]) && BackToBack(write, s, bs)
    ensures Served(base, Bio(write, s, Joined(bs)), w, CarryAll(w, Drained(m, merge, base, [Fs(id, bs)])))
  {
    var q, b := [Fs(id, bs)], Bio(write, s, Joined(bs));
    DrainedAlike(m, merge, base, limit, q, w);
    OneRequest(id, bs);
    CuttingDoesNotMatter(write, s, bs);
    AllAtWithin(base, limit, BioTransfers(Reference, b));
    MovesOfBio(base, limit, b);
    MovesServe(base, b, w);
    CarryAllIsStepAll(w, AllAt(base, BioTransfers(Reference, b)));
    ServedSame(base, b, w, StepAll(w, BioMoves(base, b)), CarryAll(w, Drained(m, merge, base, q)));
  }

  lemma OneRequest(id: nat, bs: seq<Bio>)
    ensures QueueTransfers(Reference, [Fs(id, bs)]) == BiosTransfers(Reference, bs)
  {
    assert [Fs(id, bs)][..0] == [];
  }

  /** What a written stretch leaves on the disk. */
  lemma {:induction false} WrittenByte(m: Mode, merge: bool, base: nat, limit: nat, s: nat, id: nat, bs: seq<Bio>, w: World, o: nat)
    requires Drainable(m, merge, base, limit, [Fs(id, bs)]) && BackToBack(true, s, bs) && o < TotalLen(Joined(bs))
    ensures CarryAll(w, Drained(m, merge, base, [Fs(id, bs)])).remote(base + 512 * s + o) == w.local(ByteAt(Joined(bs), o))
  {
    StretchServed(m, merge, base, limit, id, bs, true, s, w);
    ServedWrite(base, s, Joined(bs), w, CarryAll(w, Drained(m, merge, base, [Fs(id, bs)])), o);
  }

  lemma ServedWrite(base: nat, s: nat, segs: seq<Segment>, w: World, v: World, o: nat)
    requires Served(base, Bio(true, s, segs), w, v) && o < TotalLen(segs)
    ensures v.remote(base + 512 * s + o) == w.local(ByteAt(segs, o))
  {
  }

  /** What reading a stretch leaves in the buffers. */
  lemma {:induction false} ReadByte(m: Mode, merge: bool, base: nat, limit: nat, s: nat, id: nat, bs: seq<Bio>, w: World, o: nat)
    requires Drainable(m, merge, base, limit, [Fs(id, bs)]) && BackToBack(false, s, bs)
    requires o < TotalLen(Joined(bs)) && Final(Joined(bs), o)
    ensures CarryAll(w, Drained(m, merge, base, [Fs(id, bs)])).local(ByteAt(Joined(bs), o)) == w.remote(base + 512 * s + o)
  {
    StretchServed(m, merge, base, limit, id, bs, false, s, w);
    ServedRead(base, s, Joined(bs), w, CarryAll(w, Drained(m, merge, base, [Fs(id, bs)])), o);
  }

  lemma ServedRead(base: nat, s: nat, segs: seq<Segment>, w: World, v: World, o: nat)
    requires Served(base, Bio(false, s, segs), w, v) && o < TotalLen(segs) && Final(segs, o)
    ensures v.local(ByteAt(segs, o)) == w.remote(base + 512 * s + o)
  {
    LastByteIff(segs, TotalLen(segs), ByteAt(segs, o), o);
  }

  /** A read returns what was written: whatever the modes, the merging and the bios the write and the read
      of a stretch were cut into, afterwards every byte of the read's buffers (that no later byte of
      the same read overwrites) is the byte the write had at that place. */
  lemma {:induction false} ReadReturnsWritten(m1: Mode, m2: Mode, merge: bool, base: nat, limit: nat, s: nat,
                                              id1: nat, outs: seq<Bio>, id2: nat, ins: seq<Bio>, w: World, o: nat)
    requires Drainable(m1, merge, base, limit, [Fs(id1, outs)]) && BackToBack(true, s, outs)
    requires Drainable(m2, merge, base, limit, [Fs(id2, ins)]) && BackToBack(false, s, ins)
    requires o < TotalLen(Joined(ins)) <= TotalLen(Joined(outs)) && Final(Joined(ins), o)
    ensures var between := CarryAll(w, Drained(m1, merge, base, [Fs(id1, outs)]));
            var after := CarryAll(between, Drained(m2, merge, base, [Fs(id2, ins)]));
            after.local(ByteAt(Joined(ins), o)) == w.local(ByteAt(Joined(outs), o))
  {
    WrittenByte(m1, merge, base, limit, s, id1, outs, w, o);
    ReadByte(m2, merge, base, limit, s, id2, ins, CarryAll(w, Drained(m1, merge, base, [Fs(id1, outs)])), o);
  }
}
