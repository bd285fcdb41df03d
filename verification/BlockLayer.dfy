/**
 Block requests as the drains walk them: a request is a list of bios, a bio a list of segments that
 lie back to back on the device.

 The driver never looks at the length of the segment it is on.  It reads `bio_cur_bytes(bio)`, the
 length of the bio's first segment, for every segment, and the deferred modes round it down to whole
 sectors.  `Reading` names the three ways a bio can be turned into transfers, and
 `ExactReadingIff`/`RoundedReadingIff` say precisely on which bios the driver's way is the right one.
 */
module BlockLayer {
  import opened Transfers

  const SECTOR: nat := 512

  datatype Segment = Segment(addr: nat, len: nat)

  datatype Bio = Bio(write: bool, sector: nat, segs: seq<Segment>)

  datatype Request = Fs(id: nat, bios: seq<Bio>) | Other(id: nat)

  /** Exact: rmem_request_sync.  Rounded: rmem_request_async and _one.  Reference: segment by segment. */
  datatype Reading = Exact | Rounded | Reference

  function CurBytes(b: Bio): nat {
    if b.segs == [] then 0 else b.segs[0].len
  }

  function Direction(b: Bio): Op {
    if b.write then Write else Read
  }

  function TotalLen(segs: seq<Segment>): nat {
    if segs == [] then 0 else TotalLen(segs[..|segs| - 1]) + segs[|segs| - 1].len
  }

  /** The running sector number of the segment loops: it advances by the same amount every turn. */
  function SectorAt(b: Bio, i: nat): nat {
    if i == 0 then b.sector else SectorAt(b, i - 1) + CurBytes(b) / SECTOR
  }

  function SegmentTransfer(how: Reading, b: Bio, i: nat): Transfer
    requires i < |b.segs|
  {
    match how
    case Exact => Transfer(Direction(b), b.segs[i].addr, SectorAt(b, i) * SECTOR, CurBytes(b))
    case Rounded => Transfer(Direction(b), b.segs[i].addr, SectorAt(b, i) * SECTOR, CurBytes(b) / SECTOR * SECTOR)
    case Reference => Transfer(Direction(b), b.segs[i].addr, b.sector * SECTOR + TotalLen(b.segs[..i]), b.segs[i].len)
  }

  /** The transfers for the first `n` segments of a bio. */
  function BioPrefix(how: Reading, b: Bio, n: nat): (ts: seq<Transfer>)
    requires n <= |b.segs|
    ensures |ts| == n
  {
    seq(n, i requires 0 <= i < n => SegmentTransfer(how, b, i))
  }

  /** The bio's transfers start at position p of a stream. */
  predicate BioAt(how: Reading, all: seq<Transfer>, p: nat, b: Bio) {
    p + |b.segs| <= |all| && all[p..p + |b.segs|] == BioTransfers(how, b)
  }

  lemma SegmentInStream(how: Reading, all: seq<Transfer>, p: nat, b: Bio, i: nat)
    requires BioAt(how, all, p, b) && i < |b.segs|
    ensures p + i < |all| && all[p + i] == SegmentTransfer(how, b, i)
  {
    assert all[p..p + |b.segs|][i] == BioTransfers(how, b)[i];
  }

  function BioTransfers(how: Reading, b: Bio): seq<Transfer> {
    BioPrefix(how, b, |b.segs|)
  }

  function BiosTransfers(how: Reading, bios: seq<Bio>): seq<Transfer> {
    if bios == [] then [] else BiosTransfers(how, bios[..|bios| - 1]) + BioTransfers(how, bios[|bios| - 1])
  }

  /** Requests that are not filesystem requests are failed on the spot and move nothing. */
  function RequestTransfers(how: Reading, r: Request): seq<Transfer> {
    match r
    case Fs(_, bios) => BiosTransfers(how, bios)
    case Other(_) => []
  }

  function QueueTransfers(how: Reading, q: seq<Request>): seq<Transfer> {
    if q == [] then [] else QueueTransfers(how, q[..|q| - 1]) + RequestTransfers(how, q[|q| - 1])
  }

  /** The filesystem requests of a queue, in fetch order. */
  function FsIds(q: seq<Request>): seq<nat> {
    if q == [] then [] else
    FsIds(q[..|q| - 1]) + (if q[|q| - 1].Fs? then [q[|q| - 1].id] else [])
  }

  /** The requests the driver refuses, in fetch order. */
  function OtherIds(q: seq<Request>): seq<nat> {
    if q == [] then [] else
    OtherIds(q[..|q| - 1]) + (if q[|q| - 1].Fs? then [] else [q[|q| - 1].id])
  }

  lemma Prefixes(how: Reading, q: seq<Request>, i: nat)
    requires i < |q|
    ensures QueueTransfers(how, q[..i + 1]) == QueueTransfers(how, q[..i]) + RequestTransfers(how, q[i])
    ensures FsIds(q[..i + 1]) == FsIds(q[..i]) + (if q[i].Fs? then [q[i].id] else [])
    ensures OtherIds(q[..i + 1]) == OtherIds(q[..i]) + (if q[i].Fs? then [] else [q[i].id])
  {
    assert q[..i + 1][..|q[..i + 1]| - 1] == q[..i];
  }

  /** The transfers of each filesystem request of the queue. */
  function PerRequest(q: seq<Request>): seq<seq<Transfer>> {
    if q == [] then [] else
    PerRequest(q[..|q| - 1]) + (if q[|q| - 1].Fs? then [BiosTransfers(Rounded, q[|q| - 1].bios)] else [])
  }

  lemma PerRequestPrefix(q: seq<Request>, i: nat)
    requires i < |q|
    ensures PerRequest(q[..i + 1]) == PerRequest(q[..i]) + (if q[i].Fs? then [BiosTransfers(Rounded, q[i].bios)] else [])
  {
    assert q[..i + 1][..|q[..i + 1]| - 1] == q[..i];
  }

  lemma BioPrefixes(how: Reading, bios: seq<Bio>, j: nat)
    requires j < |bios|
    ensures BiosTransfers(how, bios[..j + 1]) == BiosTransfers(how, bios[..j]) + BioTransfers(how, bios[j])
  {
    assert bios[..j + 1][..|bios[..j + 1]| - 1] == bios[..j];
  }

  /** Where the transfers of bio j lie among those of its request. */
  lemma {:induction false} BioInStream(how: Reading, bios: seq<Bio>, j: nat)
    requires j < |bios|
    ensures var p := |BiosTransfers(how, bios[..j])|;
            && BioAt(how, BiosTransfers(how, bios), p, bios[j])
            && |BiosTransfers(how, bios[..j + 1])| == p + |bios[j].segs|
  {
    BioPrefixes(how, bios, j);
    BiosPrefix(how, bios, j + 1);
    var p, all := |BiosTransfers(how, bios[..j])|, BiosTransfers(how, bios);
    var upto := BiosTransfers(how, bios[..j + 1]);
    assert upto[p..p + |bios[j].segs|] == BioTransfers(how, bios[j]);
    assert all[p..p + |bios[j].segs|] == upto[p..p + |bios[j].segs|];
  }

  lemma {:induction false} BiosPrefix(how: Reading, bios: seq<Bio>, j: nat)
    requires j <= |bios|
    ensures BiosTransfers(how, bios[..j]) <= BiosTransfers(how, bios)
    decreases |bios| - j
  {
    if j == |bios| {
      assert bios[..j] == bios;
    } else {
      BioPrefixes(how, bios, j);
      BiosPrefix(how, bios, j + 1);
    }
  }

  lemma {:induction false} QueuePrefix(how: Reading, q: seq<Request>, i: nat)
    requires i <= |q|
    ensures QueueTransfers(how, q[..i]) <= QueueTransfers(how, q)
    ensures |FsIds(q[..i])| <= |FsIds(q)|
    decreases |q| - i
  {
    if i == |q| {
      assert q[..i] == q;
    } else {
      Prefixes(how, q, i);
      QueuePrefix(how, q, i + 1);
    }
  }

  // ---------------------------------------------------------------- when the driver reads a bio right

  predicate EqualSegments(b: Bio) {
    forall i :: 0 <= i < |b.segs| ==> b.segs[i].len == CurBytes(b)
  }

  lemma {:induction false} EqualLengthsAdd(b: Bio, n: nat)
    requires EqualSegments(b) && n <= |b.segs|
    ensures TotalLen(b.segs[..n]) == n * CurBytes(b)
  {
    if n > 0 {
      EqualLengthsAdd(b, n - 1);
      assert b.segs[..n][..n - 1] == b.segs[..n - 1];
    }
  }

  lemma {:induction false} SectorsOfWholeBytes(b: Bio, i: nat)
    requires CurBytes(b) % SECTOR == 0
    ensures SectorAt(b, i) * SECTOR == b.sector * SECTOR + i * CurBytes(b)
  {
    if i > 0 {
      SectorsOfWholeBytes(b, i - 1);
    }
  }

  lemma SegmentReadRight(how: Reading, b: Bio, i: nat)
    requires EqualSegments(b) && i < |b.segs|
    requires CurBytes(b) % SECTOR == 0 || (how == Exact && i == 0)
    ensures SegmentTransfer(how, b, i) == SegmentTransfer(Reference, b, i)
  {
    EqualLengthsAdd(b, i);
    if CurBytes(b) % SECTOR == 0 {
      SectorsOfWholeBytes(b, i);
    }
  }

  /** The sync drain reads a bio right iff its segments are equally long and, if there are several, whole sectors. */
  lemma ExactReadingIff(b: Bio)
    ensures BioTransfers(Exact, b) == BioTransfers(Reference, b)
       <==> EqualSegments(b) && (|b.segs| <= 1 || CurBytes(b) % SECTOR == 0)
  {
    var l, r := BioTransfers(Exact, b), BioTransfers(Reference, b);
    if EqualSegments(b) && (|b.segs| <= 1 || CurBytes(b) % SECTOR == 0) {
      forall i | 0 <= i < |b.segs| ensures l[i] == r[i] {
        SegmentReadRight(Exact, b, i);
      }
    } else if l == r {
      forall i | 0 <= i < |b.segs| ensures b.segs[i].len == CurBytes(b) {
        assert l[i].len == r[i].len;
      }
      assert l[1].remote == r[1].remote;
      EqualLengthsAdd(b, 1);
    }
  }

  /** The deferred drains also round the length, so even a lone segment must be whole sectors. */
  lemma RoundedReadingIff(b: Bio)
    ensures BioTransfers(Rounded, b) == BioTransfers(Reference, b)
       <==> EqualSegments(b) && CurBytes(b) % SECTOR == 0
  {
    var l, r := BioTransfers(Rounded, b), BioTransfers(Reference, b);
    if EqualSegments(b) && CurBytes(b) % SECTOR == 0 {
      forall i | 0 <= i < |b.segs| ensures l[i] == r[i] {
        SegmentReadRight(Rounded, b, i);
      }
    } else if l == r && b.segs != [] {
      assert l[0].len == r[0].len;
      forall i | 0 <= i < |b.segs| ensures b.segs[i].len == CurBytes(b) {
        assert l[i].len == r[i].len;
      }
    }
  }

  /** A bio both readings get wrong: a page and then a sector. */
  lemma UnequalSegmentsAreMisread()
    ensures var b := Bio(true, 0, [Segment(0, 4096), Segment(8192, 512)]);
            && BioTransfers(Exact, b)[1] == Transfer(Write, 8192, 4096, 4096) == BioTransfers(Rounded, b)[1]
            && BioTransfers(Reference, b)[1] == Transfer(Write, 8192, 4096, 512)
  {
    var b := Bio(true, 0, [Segment(0, 4096), Segment(8192, 512)]);
    assert SectorAt(b, 0) == 0 && SectorAt(b, 1) == 8;
    assert b.segs[..1] == [Segment(0, 4096)] && b.segs[..1][..0] == [];
    assert TotalLen(b.segs[..1]) == TotalLen([]) + 4096;
  }

  /** A bio only the deferred drains get wrong: they drop a lone segment of less than a sector. */
  lemma PartialSectorIsDropped()
    ensures var b := Bio(true, 0, [Segment(0, 100)]);
            && BioTransfers(Exact, b) == BioTransfers(Reference, b)
            && BioTransfers(Reference, b)[0].len == 100 && BioTransfers(Rounded, b)[0].len == 0
  {
    ExactReadingIff(Bio(true, 0, [Segment(0, 100)]));
  }

  /** What the driver silently takes for granted about every bio. */
  predicate Regular(q: seq<Request>) {
    forall i :: 0 <= i < |q| && q[i].Fs? ==> RegularBios(q[i].bios)
  }

  predicate RegularBios(bios: seq<Bio>) {
    forall j :: 0 <= j < |bios| ==> EqualSegments(bios[j]) && CurBytes(bios[j]) % SECTOR == 0
  }

  lemma {:induction false} BiosReadRight(how: Reading, bios: seq<Bio>)
    requires RegularBios(bios)
    ensures BiosTransfers(how, bios) == BiosTransfers(Reference, bios)
  {
    if bios != [] {
      BiosReadRight(how, bios[..|bios| - 1]);
      ExactReadingIff(bios[|bios| - 1]);
      RoundedReadingIff(bios[|bios| - 1]);
    }
  }

  /** On a regular queue every mode starts from the reference transfers. */
  lemma {:induction false} QueueReadRight(how: Reading, q: seq<Request>)
    requires Regular(q)
    ensures QueueTransfers(how, q) == QueueTransfers(Reference, q)
  {
    if q != [] {
      var init, last := q[..|q| - 1], q[|q| - 1];
      QueueReadRight(how, init);
      if last.Fs? {
        BiosReadRight(how, last.bios);
      }
    }
  }
}
