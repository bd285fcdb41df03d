/**
 Address arithmetic, from the page count on the client's command line to the buffer the server
 allocated: no work request of any mode reaches outside the registered region, and the region lies
 inside the buffer.
 */
module Region {
  import opened Transfers
  import opened BlockLayer
  import opened Batching

  const PAGE_SIZE: nat := 4096
  const GIGABYTE: nat := 1024 * 1024 * 1024

  /** rem_mem_size, the size the client announces. */
  function Announced(npages: nat): nat {
    npages * (1024 * 4)
  }

  /** The capacity set on the disk, in sectors. */
  function Capacity(npages: nat): nat {
    npages * (PAGE_SIZE / SECTOR)
  }

  /** The disk is as large as the region the client asks for: 4096 bytes for every page. */
  lemma CapacityIsAnnounced(npages: nat)
    ensures Capacity(npages) * 512 == Announced(npages) == 4096 * npages
  {
  }

  /** C conversion of a floating value to an integer: towards zero. */
  function Trunc(x: real): int {
    if x >= 0.0 then x.Floor else -((-x).Floor)
  }

  /** What the server allocates; sizeGb is its second argument, a fraction of gigabytes. */
  function BufferBytes(sizeGb: real): int {
    Trunc(sizeGb * 1024.0 * 1024.0 * 1024.0)
  }

  /** The limit the announced size is checked against: the gigabytes go through an int first, and
      that int through an unsigned 64-bit product. */
  function CheckedLimit(sizeGb: real): nat {
    (Trunc(sizeGb) % U64) * GIGABYTE % U64
  }

  predicate Accepts(sizeGb: real, memSize: nat) {
    0 < memSize <= CheckedLimit(sizeGb)
  }

  /** The argument converts to a C int. */
  predicate IntRange(sizeGb: real) {
    -2147483648.0 < sizeGb < 2147483648.0
  }

  lemma LimitOfWhole(k: int)
    requires -2147483648 < k < 2147483648
    ensures k >= 0 ==> (k % U64) * GIGABYTE % U64 == k * GIGABYTE
    ensures k < 0 ==> (k % U64) * GIGABYTE % U64 == U64 + k * GIGABYTE
  {
    if k < 0 {
      assert k % U64 == U64 + k;
      assert (U64 + k) * GIGABYTE == (GIGABYTE - 1) * U64 + (U64 + k * GIGABYTE);
    }
  }

  /** For a sensible argument the truncated check never lets a region outgrow the fractional buffer. */
  lemma AcceptedFitsBuffer(sizeGb: real, memSize: nat)
    requires IntRange(sizeGb) && sizeGb > -1.0 && Accepts(sizeGb, memSize)
    ensures memSize <= BufferBytes(sizeGb)
  {
    LimitOfWhole(Trunc(sizeGb));
    var whole := Trunc(sizeGb);
    assert whole as real <= sizeGb;
    assert (whole * GIGABYTE) as real == whole as real * 1024.0 * 1024.0 * 1024.0;
    assert (whole * GIGABYTE) as real <= sizeGb * 1024.0 * 1024.0 * 1024.0;
  }

  const LARGEST_BLOCK: nat := 0x7fff_ffff_ffff_ffff

  /** n may be the size malloc is called with: C defines the conversion of a floating value to an
      unsigned integer only where its truncated value is not negative. */
  predicate Converts(sizeGb: real, n: nat) {
    n < U64 && (BufferBytes(sizeGb) >= 0 ==> n == BufferBytes(sizeGb))
  }

  /** malloc returns null or a block, never one of more than PTRDIFF_MAX bytes. */
  predicate Mallocs(n: nat, buffer: Option<nat>) {
    buffer.Some? ==> n <= LARGEST_BLOCK && buffer.value + n < U64
  }

  /** Everything a size has to pass before the server serves a region: the two tests on the number,
      a buffer that is not null, and the registration, which is up to the adapter. */
  predicate Admits(sizeGb: real, buffer: Option<nat>, registered: bool, memSize: nat) {
    Accepts(sizeGb, memSize) && buffer.Some? && registered
  }

  /** Exactly when the server's tests protect its buffer on every C implementation.  With minus one
      gigabyte or less the cast to unsigned turns the limit into a huge number, and the size malloc is
      called with is undefined, so the buffer may be there and be smaller than the region. */
  lemma CheckProtectsBufferIff(sizeGb: real)
    requires IntRange(sizeGb)
    ensures (forall n: nat, buffer: Option<nat>, registered: bool, memSize: nat ::
               Converts(sizeGb, n) && Mallocs(n, buffer) && Admits(sizeGb, buffer, registered, memSize) ==> memSize <= n)
       <==> sizeGb > -1.0
  {
    if sizeGb > -1.0 {
      forall n: nat, buffer: Option<nat>, registered: bool, memSize: nat
        | Converts(sizeGb, n) && Mallocs(n, buffer) && Admits(sizeGb, buffer, registered, memSize)
        ensures memSize <= n
      {
        AcceptedFitsBuffer(sizeGb, memSize);
      }
    } else {
      LimitOfWhole(Trunc(sizeGb));
      assert Converts(sizeGb, 1) && Mallocs(1, Some(0)) && Admits(sizeGb, Some(0), true, 2);
    }
  }

  /** Where the conversion wraps, as it does on the machines the server is built for, the null test
      makes up for it: a negative size becomes one that malloc refuses, whatever the argument. */
  lemma WrappingConversionProtects(sizeGb: real, buffer: Option<nat>, registered: bool, memSize: nat)
    requires IntRange(sizeGb) && Mallocs(BufferBytes(sizeGb) % U64, buffer)
    ensures sizeGb <= -1.0 ==> buffer == None
    ensures Admits(sizeGb, buffer, registered, memSize) ==> memSize <= BufferBytes(sizeGb) % U64
  {
    var bytes := BufferBytes(sizeGb);
    assert -0x2000_0000_0000_0000 <= bytes < 0x2000_0000_0000_0000;
    assert bytes % U64 == if bytes >= 0 then bytes else U64 + bytes;
    if sizeGb > -1.0 && Accepts(sizeGb, memSize) {
      AcceptedFitsBuffer(sizeGb, memSize);
    }
  }

  lemma WholeBufferBytes(k: nat)
    ensures BufferBytes(k as real) == k * 1073741824 && Trunc(k as real) == k
  {
    assert k as real * 1024.0 * 1024.0 * 1024.0 == (k * 1073741824) as real;
  }

  /** For a whole number of gigabytes the check accepts exactly the regions that fit the buffer. */
  lemma WholeCheckIsExact(k: nat, memSize: nat)
    requires k < 2147483648
    ensures Accepts(k as real, memSize) <==> 0 < memSize <= BufferBytes(k as real)
  {
    WholeBufferBytes(k);
    LimitOfWhole(k);
  }

  /** For any other argument it accepts what fits a buffer of its whole part. */
  lemma CheckedLikeWholePart(sizeGb: real, memSize: nat)
    requires IntRange(sizeGb) && sizeGb > -1.0
    ensures Accepts(sizeGb, memSize) <==> 0 < memSize <= BufferBytes(Trunc(sizeGb) as real)
  {
    WholeCheckIsExact(Trunc(sizeGb), memSize);
  }

  /** When the check is exact: every region that fits the buffer is let through if and only if the
      buffer is no larger than that of the argument's whole part (or nothing was allocated). */
  lemma CheckIsExactIff(sizeGb: real)
    requires IntRange(sizeGb)
    ensures (forall memSize: nat :: 0 < memSize <= BufferBytes(sizeGb) ==> Accepts(sizeGb, memSize))
       <==> BufferBytes(sizeGb) == BufferBytes(Trunc(sizeGb) as real) || BufferBytes(sizeGb) <= 0
  {
    var bytes := BufferBytes(sizeGb);
    if bytes > 0 {
      var whole := BufferBytes(Trunc(sizeGb) as real);
      forall memSize: nat ensures Accepts(sizeGb, memSize) <==> 0 < memSize <= whole {
        CheckedLikeWholePart(sizeGb, memSize);
      }
      if Trunc(sizeGb) > 0 {
        WholeBufferBytes(Trunc(sizeGb));
        AcceptedFitsBuffer(sizeGb, whole);
      }
      assert Accepts(sizeGb, bytes) <==> bytes <= whole;
    }
  }

  /** Where it is not: a server started with one and a half gigabytes refuses a region that fits. */
  lemma AcceptIsConservative()
    ensures !Accepts(1.5, GIGABYTE + 1) && GIGABYTE + 1 <= BufferBytes(1.5)
  {
    assert (1.5).Floor == 1;
    LimitOfWhole(1);
    assert 1.5 * 1024.0 * 1024.0 * 1024.0 == 1610612736.0;
    assert (1610612736.0).Floor == 1610612736;
  }

  // ---------------------------------------------------------------- transfers inside a range

  predicate Within(lo: nat, hi: nat, ts: seq<Transfer>) {
    forall i :: 0 <= i < |ts| ==> lo <= ts[i].remote && ts[i].remote + ts[i].len <= hi
  }

  lemma CoalesceWithin(merge: bool, lo: nat, hi: nat, p: seq<Transfer>, t: Transfer)
    requires Within(lo, hi, p) && lo <= t.remote && t.remote + t.len <= hi < U64
    ensures Within(lo, hi, Coalesce(merge, p, t))
  {
    if p != [] && Mergeable(p[|p| - 1], t) {
      var last := p[|p| - 1];
      assert last.remote + last.len == t.remote;
    }
  }

  lemma {:induction false} AsyncRunWithin(merge: bool, lo: nat, hi: nat, ts: seq<Transfer>)
    requires Within(lo, hi, ts) && hi < U64
    ensures Within(lo, hi, AsyncRun(merge, ts))
  {
    if ts != [] {
      AsyncRunWithin(merge, lo, hi, ts[..|ts| - 1]);
      CoalesceWithin(merge, lo, hi, AsyncRun(merge, ts[..|ts| - 1]), ts[|ts| - 1]);
    }
  }

  lemma {:induction false} OneRunWithin(lo: nat, hi: nat, rs: seq<seq<Transfer>>)
    requires Within(lo, hi, Flatten(rs)) && hi < U64
    ensures Within(lo, hi, OneRun(rs))
  {
    if rs != [] {
      var init, last := rs[..|rs| - 1], rs[|rs| - 1];
      assert forall i :: 0 <= i < |Flatten(init)| ==> Flatten(init)[i] == Flatten(rs)[i];
      assert forall i :: 0 <= i < |last| ==> last[i] == Flatten(rs)[|Flatten(init)| + i];
      OneRunWithin(lo, hi, init);
      AsyncRunWithin(true, lo, hi, last);
    }
  }

  lemma {:induction false} SyncRunWithin(merge: bool, max: nat, lo: nat, hi: nat, ts: seq<Transfer>)
    requires Within(lo, hi, ts) && hi < U64
    ensures Within(lo, hi, Stream(SyncRun(merge, max, ts)))
  {
    if ts != [] {
      var b, t := SyncRun(merge, max, ts[..|ts| - 1]), ts[|ts| - 1];
      SyncRunWithin(merge, max, lo, hi, ts[..|ts| - 1]);
      assert forall i :: 0 <= i < |b.pending| ==> b.pending[i] == Stream(b)[|Flatten(b.sent)| + i];
      assert forall i :: 0 <= i < |Flatten(b.sent)| ==> Flatten(b.sent)[i] == Stream(b)[i];
      CoalesceWithin(merge, lo, hi, b.pending, t);
      SyncAddStream(merge, max, b, t);
    }
  }

  lemma AllAtWithin(base: nat, limit: nat, ts: seq<Transfer>)
    requires Within(0, limit, ts) && base + limit < U64
    ensures Within(base, base + limit, AllAt(base, ts)) && Below(base, limit, ts)
  {
  }

  // ---------------------------------------------------------------- requests inside the capacity

  /** The block layer's promise: a bio ends within the capacity of the disk. */
  predicate InCapacity(sectors: nat, bios: seq<Bio>) {
    forall j :: 0 <= j < |bios| ==> bios[j].sector * SECTOR + TotalLen(bios[j].segs) <= sectors * SECTOR
  }

  predicate QueueInCapacity(sectors: nat, q: seq<Request>) {
    forall i :: 0 <= i < |q| && q[i].Fs? ==> InCapacity(sectors, q[i].bios)
  }

  lemma {:induction false} TotalLenGrows(segs: seq<Segment>, i: nat)
    requires i < |segs|
    ensures TotalLen(segs[..i]) + segs[i].len <= TotalLen(segs)
    decreases |segs|
  {
    if i == |segs| - 1 {
      assert segs[..i] == segs[..|segs| - 1];
    } else {
      TotalLenGrows(segs[..|segs| - 1], i);
      assert segs[..|segs| - 1][..i] == segs[..i];
    }
  }

  lemma {:induction false} BiosWithin(sectors: nat, bios: seq<Bio>)
    requires InCapacity(sectors, bios)
    ensures Within(0, sectors * SECTOR, BiosTransfers(Reference, bios))
  {
    if bios != [] {
      var b := bios[|bios| - 1];
      BiosWithin(sectors, bios[..|bios| - 1]);
      forall i | 0 <= i < |b.segs|
        ensures BioTransfers(Reference, b)[i].remote + BioTransfers(Reference, b)[i].len <= sectors * SECTOR
      {
        TotalLenGrows(b.segs, i);
      }
    }
  }

  lemma {:induction false} QueueWithin(sectors: nat, q: seq<Request>)
    requires QueueInCapacity(sectors, q)
    ensures Within(0, sectors * SECTOR, QueueTransfers(Reference, q))
  {
    if q != [] {
      QueueWithin(sectors, q[..|q| - 1]);
      if q[|q| - 1].Fs? {
        BiosWithin(sectors, q[|q| - 1].bios);
      }
    }
  }

  // ---------------------------------------------------------------- the streams of the three modes

  /** Everything the sync drain posts, as it goes on the wire. */
  function SyncStream(merge: bool, max: nat, base: nat, q: seq<Request>): seq<Transfer> {
    Flatten(Flushed(SyncRun(merge, max, AllAt(base, QueueTransfers(Exact, q)))))
  }

  function AsyncStream(merge: bool, base: nat, q: seq<Request>): seq<Transfer> {
    AllAt(base, AsyncRun(merge, QueueTransfers(Rounded, q)))
  }

  function OneStream(base: nat, q: seq<Request>): seq<Transfer> {
    AllAt(base, OneRun(PerRequest(q)))
  }

  /** Every work request of every mode, merged or not, stays inside the registered region, and the
      region stays inside the n bytes the server allocated at `buffer`. */
  lemma {:induction false} WorkRequestsStayInside(npages: nat, sizeGb: real, n: nat, buffer: nat, q: seq<Request>, merge: bool, max: nat)
    requires IntRange(sizeGb) && sizeGb > -1.0 && Converts(sizeGb, n) && Mallocs(n, Some(buffer))
    requires Admits(sizeGb, Some(buffer), true, Announced(npages))
    requires Regular(q) && QueueInCapacity(Capacity(npages), q)
    ensures buffer + Announced(npages) <= buffer + n
    ensures Within(buffer, buffer + Announced(npages), SyncStream(merge, max, buffer, q))
    ensures Within(buffer, buffer + Announced(npages), AsyncStream(merge, buffer, q))
    ensures Within(buffer, buffer + Announced(npages), OneStream(buffer, q))
  {
    var limit := Announced(npages);
    AcceptedFitsBuffer(sizeGb, limit);
    QueueWithin(Capacity(npages), q);
    CapacityIsAnnounced(npages);
    QueueReadRight(Exact, q);
    QueueReadRight(Rounded, q);
    var ts := QueueTransfers(Reference, q);
    AllAtWithin(buffer, limit, ts);
    SyncRunWithin(merge, max, buffer, buffer + limit, AllAt(buffer, ts));
    StreamIsFlushed(SyncRun(merge, max, AllAt(buffer, ts)));
    AsyncRunWithin(merge, 0, limit, ts);
    AllAtWithin(buffer, limit, AsyncRun(merge, ts));
    PerRequestFlat(q);
    OneRunWithin(0, limit, PerRequest(q));
    AllAtWithin(buffer, limit, OneRun(PerRequest(q)));
  }

  lemma SoundAt(base: nat, limit: nat, ts: seq<Transfer>)
    requires AllSound(ts) && Below(base, limit, ts)
    ensures AllSound(AllAt(base, ts)) && Bytes(AllAt(base, ts)) == Bytes(ts)
  {
    BytesIsMoves(ts);
    BytesIsMoves(AllAt(base, ts));
    AllMovesAt(base, limit, ts);
  }

  /** The three modes agree: their streams, whatever the merge policy and the flush points, change
      every pair of memories as carrying out every segment alone in queue order does.  Only merged
      lengths have to fit 32 bits: without merging any number of bytes will do. */
  lemma {:induction false} ModesAgree(q: seq<Request>, merge: bool, max: nat, base: nat, limit: nat, w: World)
    requires Regular(q) && Within(0, limit, QueueTransfers(Reference, q)) && base + limit < U64
    requires AllSound(QueueTransfers(Reference, q))
    ensures var alone := CarryAll(w, AllAt(base, QueueTransfers(Reference, q)));
            && ((merge ==> Bytes(QueueTransfers(Reference, q)) < U32) ==>
                  && Same(CarryAll(w, SyncStream(merge, max, base, q)), alone)
                  && Same(CarryAll(w, AsyncStream(merge, base, q)), alone))
            && ((forall i :: 0 <= i < |PerRequest(q)| ==> Bytes(PerRequest(q)[i]) < U32) ==>
                  Same(CarryAll(w, OneStream(base, q)), alone))
  {
    var ts := QueueTransfers(Reference, q);
    QueueReadRight(Exact, q);
    QueueReadRight(Rounded, q);
    AllAtWithin(base, limit, ts);
    SoundAt(base, limit, ts);
    if merge ==> Bytes(ts) < U32 {
      SyncPreservesMeaning(merge, max, AllAt(base, ts), w);
      AsyncRunKeepsMoves(merge, ts);
      AsyncRunWithin(merge, 0, limit, ts);
      RelocatedAgrees(base, limit, ts, AsyncRun(merge, ts), w);
    }
    PerRequestFlat(q);
    if forall i :: 0 <= i < |PerRequest(q)| ==> Bytes(PerRequest(q)[i]) < U32 {
      OneRunKeepsMoves(PerRequest(q));
      OneRunWithin(0, limit, PerRequest(q));
      RelocatedAgrees(base, limit, ts, OneRun(PerRequest(q)), w);
    }
  }

  lemma RelocatedAgrees(base: nat, limit: nat, ts: seq<Transfer>, us: seq<Transfer>, w: World)
    requires Within(0, limit, ts) && Within(0, limit, us) && base + limit < U64
    requires AllMoves(ts) == AllMoves(us)
    ensures Same(CarryAll(w, AllAt(base, us)), CarryAll(w, AllAt(base, ts)))
  {
    AllAtWithin(base, limit, ts);
    AllAtWithin(base, limit, us);
    AllMovesAt(base, limit, ts);
    AllMovesAt(base, limit, us);
    SameMovesSameEffect(w, AllAt(base, us), AllAt(base, ts));
  }
}
