/**
 Send work requests and the list `ib_post_send` follows.

 A work request lives in a slot of the device's array and points to the next slot; its gather entry
 lives in a second array.  `Chain` is what the adapter sees: the requests reached from slot 0 by
 following `next` until it is null.
 */
module Verbs {
  import opened Transfers

  datatype Context = Context(remVaddr: nat, remRkey: nat, lkey: nat)

  datatype Sge = Sge(addr: nat, length: nat, lkey: nat)

  datatype SendWr = SendWr(wrId: nat, next: Option<nat>, sgList: Option<nat>, numSge: nat, opcode: Op,
                           signaled: bool, remoteAddr: nat, rkey: nat)

  /** A work request as posted, pointers resolved. */
  datatype Wire = Wire(t: Transfer, lkey: nat, rkey: nat, wrId: nat, signaled: bool)

  /** make_wr: everything written from scratch. */
  function MakeSge(ctx: Context, t: Transfer): Sge {
    Sge(t.local, t.len, ctx.lkey)
  }

  function MakeWr(ctx: Context, slot: nat, t: Transfer, wrId: nat): SendWr {
    SendWr(wrId, None, Some(slot), 1, t.op, true, t.remote, ctx.remRkey)
  }

  function MakeWire(ctx: Context, t: Transfer, wrId: nat): Wire {
    Wire(t, ctx.lkey, ctx.remRkey, wrId, true)
  }

  function Wires(ctx: Context, ts: seq<Transfer>, wrId: nat): (ws: seq<Wire>)
    ensures |ws| == |ts|
  {
    seq(|ts|, i requires 0 <= i < |ts| => MakeWire(ctx, ts[i], wrId))
  }

  function Carried(ws: seq<Wire>): (ts: seq<Transfer>)
    ensures |ts| == |ws|
  {
    seq(|ws|, i requires 0 <= i < |ws| => ws[i].t)
  }

  /** The wr_id of each work request: what the completion handler gets back. */
  function WrIds(ws: seq<Wire>): (ids: seq<nat>)
    ensures |ids| == |ws|
  {
    seq(|ws|, i requires 0 <= i < |ws| => ws[i].wrId)
  }

  function WireBatches(ctx: Context, bs: seq<seq<Transfer>>): (ws: seq<seq<Wire>>)
    ensures |ws| == |bs|
  {
    seq(|bs|, i requires 0 <= i < |bs| => Wires(ctx, bs[i], 0))
  }

  /** The slot holds a request the adapter can read. */
  predicate Readable(wrs: seq<SendWr>, sges: seq<Sge>, i: nat) {
    i < |wrs| && wrs[i].numSge == 1 && wrs[i].sgList.Some? && wrs[i].sgList.value < |sges|
  }

  function WireAt(wrs: seq<SendWr>, sges: seq<Sge>, i: nat): Wire
    requires Readable(wrs, sges, i)
  {
    var sge := sges[wrs[i].sgList.value];
    Wire(Transfer(wrs[i].opcode, sge.addr, wrs[i].remoteAddr, sge.length), sge.lkey, wrs[i].rkey,
         wrs[i].wrId, wrs[i].signaled)
  }

  /** Following `next` from `at` reaches null within `fuel` readable slots. */
  predicate EndsWithin(wrs: seq<SendWr>, sges: seq<Sge>, at: Option<nat>, fuel: nat)
    decreases fuel
  {
    at.None? || (fuel > 0 && Readable(wrs, sges, at.value) && EndsWithin(wrs, sges, wrs[at.value].next, fuel - 1))
  }

  function Chain(wrs: seq<SendWr>, sges: seq<Sge>, at: Option<nat>, fuel: nat): seq<Wire>
    requires EndsWithin(wrs, sges, at, fuel)
    decreases fuel
  {
    if at.None? then [] else [WireAt(wrs, sges, at.value)] + Chain(wrs, sges, wrs[at.value].next, fuel - 1)
  }

  // ---------------------------------------------------------------- the preset array

  /** The fields rmem_init sets once and simple_make_wr relies on. */
  predicate Preset(ctx: Context, wrs: seq<SendWr>, sges: seq<Sge>) {
    && |wrs| == |sges|
    && forall i :: 0 <= i < |wrs| ==>
         && wrs[i].sgList == Some(i) && wrs[i].numSge == 1 && wrs[i].signaled
         && wrs[i].rkey == ctx.remRkey && sges[i].lkey == ctx.lkey
  }

  /** Up to its link, slot i is what make_wr would have written; slots before the last are linked on. */
  predicate Holds(ctx: Context, wrs: seq<SendWr>, sges: seq<Sge>, p: seq<Transfer>) {
    && Preset(ctx, wrs, sges)
    && |p| <= |wrs|
    && (forall i :: 0 <= i < |p| ==> wrs[i].(next := None) == MakeWr(ctx, i, p[i], 0) && sges[i] == MakeSge(ctx, p[i]))
    && (forall i :: 0 <= i < |p| - 1 ==> wrs[i].next == Some(i + 1))
  }

  /** Whatever the slots behind hold, a terminated list is posted as exactly the pending transfers. */
  lemma {:induction false} ChainIsPending(ctx: Context, wrs: seq<SendWr>, sges: seq<Sge>, p: seq<Transfer>, i: nat, fuel: nat)
    requires Holds(ctx, wrs, sges, p) && i < |p| && fuel >= |p| - i
    requires wrs[|p| - 1].next == None
    ensures EndsWithin(wrs, sges, Some(i), fuel)
    ensures Chain(wrs, sges, Some(i), fuel) == Wires(ctx, p, 0)[i..]
    decreases |p| - i
  {
    var plain := MakeWr(ctx, i, p[i], 0);
    assert wrs[i].(next := None) == plain;
    assert wrs[i].opcode == plain.opcode && wrs[i].remoteAddr == plain.remoteAddr && wrs[i].wrId == plain.wrId;
    assert WireAt(wrs, sges, i) == MakeWire(ctx, p[i], 0);
    if i + 1 < |p| {
      ChainIsPending(ctx, wrs, sges, p, i + 1, fuel - 1);
    }
  }
}
