/**
 What a work request means.

 A transfer copies `len` bytes between a local (DMA) address and a remote address.  Its meaning is
 given twice: `Carry` copies the whole block at once, `Moves` lists the single bytes it moves, in
 order.  The two agree (`CarryAllIsStepAll`), so two streams of work requests that flatten to the
 same list of byte moves have the same effect on every memory (`SameMovesSameEffect`).  Merging is
 then judged by what it does to that list.
 */
module Transfers {

  const U32: int := 0x1_0000_0000
  const U64: int := 0x1_0000_0000_0000_0000

  datatype Option<+T> = None | Some(value: T)

  /** Instantiates a predicate that is folded away under `forall n :: Key(n) ==> ..`. */
  predicate Key(n: int) { true }

  datatype Op = Read | Write

  datatype Transfer = Transfer(op: Op, local: nat, remote: nat, len: nat)

  /** One byte moved by a transfer. */
  datatype Move = Move(op: Op, local: nat, remote: nat)

  function Moves(t: Transfer): (ms: seq<Move>)
    ensures |ms| == t.len
  {
    seq(t.len, i requires 0 <= i < t.len => Move(t.op, t.local + i, t.remote + i))
  }

  function AllMoves(ts: seq<Transfer>): seq<Move> {
    if ts == [] then [] else AllMoves(ts[..|ts| - 1]) + Moves(ts[|ts| - 1])
  }

  function Bytes(ts: seq<Transfer>): nat {
    if ts == [] then 0 else Bytes(ts[..|ts| - 1]) + ts[|ts| - 1].len
  }

  lemma AllMovesSnoc(ts: seq<Transfer>, t: Transfer)
    ensures AllMoves(ts + [t]) == AllMoves(ts) + Moves(t)
    ensures Bytes(ts + [t]) == Bytes(ts) + t.len
  {
    assert (ts + [t])[..|ts + [t]| - 1] == ts;
  }

  lemma {:induction false} AllMovesConcat(ts: seq<Transfer>, us: seq<Transfer>)
    ensures AllMoves(ts + us) == AllMoves(ts) + AllMoves(us)
    ensures Bytes(ts + us) == Bytes(ts) + Bytes(us)
  {
    if us == [] {
      assert ts + us == ts;
    } else {
      var init, last := us[..|us| - 1], us[|us| - 1];
      assert us == init + [last] && ts + us == ts + init + [last];
      AllMovesConcat(ts, init);
      AllMovesSnoc(ts + init, last);
      AllMovesSnoc(init, last);
    }
  }

  lemma {:induction false} BytesIsMoves(ts: seq<Transfer>)
    ensures Bytes(ts) == |AllMoves(ts)|
  {
    if ts != [] {
      BytesIsMoves(ts[..|ts| - 1]);
    }
  }

  // ---------------------------------------------------------------- memories

  type Memory = int -> int

  /** The client's memory and the server's: two separate address spaces. */
  datatype World = World(local: Memory, remote: Memory)

  /** Two worlds that hold the same bytes. */
  ghost predicate Same(w: World, v: World) {
    && (forall a: int :: w.local(a) == v.local(a))
    && (forall a: int :: w.remote(a) == v.remote(a))
  }

  function Copied(dst: Memory, at: int, src: Memory, from: int, len: nat): Memory {
    a => if at <= a < at + len then src(from + (a - at)) else dst(a)
  }

  /** The effect of one transfer as a block copy. */
  function Carry(w: World, t: Transfer): World {
    match t.op
    case Write => w.(remote := Copied(w.remote, t.remote, w.local, t.local, t.len))
    case Read => w.(local := Copied(w.local, t.local, w.remote, t.remote, t.len))
  }

  function CarryAll(w: World, ts: seq<Transfer>): World {
    if ts == [] then w else Carry(CarryAll(w, ts[..|ts| - 1]), ts[|ts| - 1])
  }

  function Put(m: Memory, at: int, v: int): Memory {
    a => if a == at then v else m(a)
  }

  function StepMove(w: World, m: Move): World {
    match m.op
    case Write => w.(remote := Put(w.remote, m.remote, w.local(m.local)))
    case Read => w.(local := Put(w.local, m.local, w.remote(m.remote)))
  }

  function StepAll(w: World, ms: seq<Move>): World {
    if ms == [] then w else StepMove(StepAll(w, ms[..|ms| - 1]), ms[|ms| - 1])
  }

  lemma {:induction false} StepAllConcat(w: World, ms: seq<Move>, ns: seq<Move>)
    ensures StepAll(w, ms + ns) == StepAll(StepAll(w, ms), ns)
  {
    if ns == [] {
      assert ms + ns == ms;
    } else {
      assert (ms + ns)[..|ms + ns| - 1] == ms + ns[..|ns| - 1];
      StepAllConcat(w, ms, ns[..|ns| - 1]);
    }
  }

  lemma {:induction false} StepAllSame(w: World, v: World, ms: seq<Move>)
    requires Same(w, v)
    ensures Same(StepAll(w, ms), StepAll(v, ms))
  {
    if ms != [] {
      StepAllSame(w, v, ms[..|ms| - 1]);
    }
  }

  lemma StepMoveSame(w: World, v: World, m: Move)
    requires Same(w, v)
    ensures Same(StepMove(w, m), StepMove(v, m))
  {
  }

  lemma CarryLastByte(w: World, t: Transfer)
    requires t.len > 0
    ensures Same(Carry(w, t), StepMove(Carry(w, t.(len := t.len - 1)), Move(t.op, t.local + t.len - 1, t.remote + t.len - 1)))
  {
  }

  lemma StepLastByte(w: World, t: Transfer)
    requires t.len > 0
    ensures StepAll(w, Moves(t)) ==
            StepMove(StepAll(w, Moves(t.(len := t.len - 1))), Move(t.op, t.local + t.len - 1, t.remote + t.len - 1))
  {
    assert Moves(t)[..t.len - 1] == Moves(t.(len := t.len - 1));
  }

  lemma SameTrans(u: World, v: World, w: World)
    requires Same(u, v) && Same(v, w)
    ensures Same(u, w)
  {
  }

  /** A block copy is the same as moving its bytes one by one. */
  lemma {:induction false} CarryIsStepAll(w: World, t: Transfer)
    ensures Same(Carry(w, t), StepAll(w, Moves(t)))
    decreases t.len
  {
    if t.len > 0 {
      var shorter, last := t.(len := t.len - 1), Move(t.op, t.local + t.len - 1, t.remote + t.len - 1);
      CarryIsStepAll(w, shorter);
      StepMoveSame(Carry(w, shorter), StepAll(w, Moves(shorter)), last);
      CarryLastByte(w, t);
      StepLastByte(w, t);
      SameTrans(Carry(w, t), StepMove(Carry(w, shorter), last), StepAll(w, Moves(t)));
    }
  }

  lemma {:induction false} CarryAllIsStepAll(w: World, ts: seq<Transfer>)
    ensures Same(CarryAll(w, ts), StepAll(w, AllMoves(ts)))
  {
    if ts != [] {
      var init, last := ts[..|ts| - 1], ts[|ts| - 1];
      CarryAllIsStepAll(w, init);
      CarryIsStepAll(CarryAll(w, init), last);
      StepAllSame(CarryAll(w, init), StepAll(w, AllMoves(init)), Moves(last));
      StepAllConcat(w, AllMoves(init), Moves(last));
    }
  }

  /** Streams that move the same bytes in the same order change every memory alike. */
  lemma {:induction false} SameMovesSameEffect(w: World, ts: seq<Transfer>, us: seq<Transfer>)
    requires AllMoves(ts) == AllMoves(us)
    ensures Same(CarryAll(w, ts), CarryAll(w, us))
  {
    CarryAllIsStepAll(w, ts);
    CarryAllIsStepAll(w, us);
  }

  lemma {:induction false} CarryAllConcat(w: World, ts: seq<Transfer>, us: seq<Transfer>)
    ensures CarryAll(w, ts + us) == CarryAll(CarryAll(w, ts), us)
  {
    if us == [] {
      assert ts + us == ts;
    } else {
      assert (ts + us)[..|ts + us| - 1] == ts + us[..|us| - 1];
      CarryAllConcat(w, ts, us[..|us| - 1]);
    }
  }

  // ---------------------------------------------------------------- merging

  /** The driver's merge test, in the 64-bit arithmetic it is written in. */
  predicate Mergeable(old_: Transfer, new_: Transfer) {
    && old_.op == new_.op
    && (old_.local + old_.len) % U64 == new_.local
    && (old_.remote + old_.len) % U64 == new_.remote
  }

  /** The merged transfer; the length is a 32-bit field. */
  function Merged(old_: Transfer, new_: Transfer): Transfer {
    old_.(len := (old_.len + new_.len) % U32)
  }

  /** The fields fit their C types and neither range wraps around the address space. */
  predicate Sound(t: Transfer) {
    t.local + t.len < U64 && t.remote + t.len < U64 && t.len < U32
  }

  predicate AllSound(ts: seq<Transfer>) {
    forall i :: 0 <= i < |ts| ==> Sound(ts[i])
  }

  /** What the test decides: the second transfer goes on where the first ends, in both memories. */
  lemma MergeableIff(a: Transfer, b: Transfer)
    requires Sound(a) && Sound(b)
    ensures Mergeable(a, b) <==> a.op == b.op && b.local == a.local + a.len && b.remote == a.remote + a.len
  {
  }

  /** Merging keeps the list of byte moves exactly when the 32-bit length does not overflow. */
  lemma MergeKeepsMovesIff(a: Transfer, b: Transfer)
    requires Sound(a) && Sound(b) && Mergeable(a, b)
    ensures Moves(Merged(a, b)) == Moves(a) + Moves(b) <==> a.len + b.len < U32
    ensures a.len + b.len < U32 ==> Sound(Merged(a, b))
  {
    if a.len + b.len < U32 {
      var m := Merged(a, b);
      assert m.len == a.len + b.len;
      assert b.local == a.local + a.len && b.remote == a.remote + a.len;
      assert Moves(m) == Moves(a) + Moves(b);
    } else {
      assert |Moves(Merged(a, b))| < a.len + b.len == |Moves(a) + Moves(b)|;
    }
  }

  /** Two halves of 4 GB: the driver merges them into a transfer of no bytes at all. */
  lemma OverflowingMergeLosesEverything()
    ensures var a, b := Transfer(Write, 0, 0, 0x8000_0000), Transfer(Write, 0x8000_0000, 0x8000_0000, 0x8000_0000);
            && Sound(a) && Sound(b) && Mergeable(a, b)
            && Moves(Merged(a, b)) == [] && |Moves(a) + Moves(b)| == U32
  {
    assert (0x8000_0000 + 0x8000_0000) % U32 == 0;
  }

  // ---------------------------------------------------------------- relocation

  /** A transfer as it goes on the wire: the remote offset becomes a 64-bit remote address. */
  function At(base: nat, t: Transfer): Transfer {
    t.(remote := (base + t.remote) % U64)
  }

  function AllAt(base: nat, ts: seq<Transfer>): (us: seq<Transfer>)
    ensures |us| == |ts|
  {
    seq(|ts|, i requires 0 <= i < |ts| => At(base, ts[i]))
  }

  lemma AllAtConcat(base: nat, ts: seq<Transfer>, us: seq<Transfer>)
    ensures AllAt(base, ts + us) == AllAt(base, ts) + AllAt(base, us)
  {
  }

  /** The transfers stay below `limit` bytes of offset, and a region of that size fits above `base`. */
  predicate Below(base: nat, limit: nat, ts: seq<Transfer>) {
    base + limit < U64 && forall i :: 0 <= i < |ts| ==> ts[i].remote + ts[i].len <= limit
  }

  function MovesAt(base: nat, ms: seq<Move>): (ns: seq<Move>)
    ensures |ns| == |ms|
  {
    seq(|ms|, i requires 0 <= i < |ms| => ms[i].(remote := base + ms[i].remote))
  }

  lemma MovesOfAt(base: nat, limit: nat, t: Transfer)
    requires base + limit < U64 && t.remote + t.len <= limit
    ensures Moves(At(base, t)) == MovesAt(base, Moves(t))
  {
  }

  lemma MovesAtConcat(base: nat, ms: seq<Move>, ns: seq<Move>)
    ensures MovesAt(base, ms + ns) == MovesAt(base, ms) + MovesAt(base, ns)
  {
  }

  /** Relocation moves the same bytes to the relocated places. */
  lemma {:induction false} AllMovesAt(base: nat, limit: nat, ts: seq<Transfer>)
    requires Below(base, limit, ts)
    ensures AllMoves(AllAt(base, ts)) == MovesAt(base, AllMoves(ts))
  {
    if ts != [] {
      var init, last := ts[..|ts| - 1], ts[|ts| - 1];
      AllMovesAt(base, limit, init);
      assert AllAt(base, ts)[..|ts| - 1] == AllAt(base, init);
      MovesOfAt(base, limit, last);
      MovesAtConcat(base, AllMoves(init), Moves(last));
    }
  }
}
