/**
 When the arena hands out memory, and where. The answers are told from the run alone: from what callers were handed
 since the last reset, and from the blocks the arena holds.
 */
module ArenaGrowth {
  import opened Arena

  /** What callers hold of one block. */
  function Taken(gs: seq<Grant>, block: nat): nat {
    if gs == [] then 0
    else
      var last := gs[|gs| - 1];
      Taken(gs[..|gs| - 1], block) + if last.block == block then last.size else 0
  }

  function LastOf(s: seq<nat>): nat
    requires s != []
  {
    s[|s| - 1]
  }

  /** The request fits behind what callers hold of the last block. */
  predicate Fits(s: State, gs: seq<Grant>, n: nat)
    requires s.blocks != [] && s.blockSizes != []
  {
    Taken(gs, LastOf(s.blocks)) + RoundUp(n) <= LastOf(s.blockSizes)
  }

  /** Nothing of the last block is lost: it is used as far as callers hold it. */
  ghost predicate Tight(s: State, gs: seq<Grant>) {
    s.blocks != [] ==> s.used == Taken(gs, LastOf(s.blocks))
  }

  lemma TakenMore(gs: seq<Grant>, g: Grant, block: nat)
    ensures Taken(gs + [g], block) == Taken(gs, block) + if g.block == block then g.size else 0
  {
    assert (gs + [g])[..|gs|] == gs;
  }

  lemma {:induction false} NothingTaken(gs: seq<Grant>, block: nat)
    requires forall g | g in gs :: g.block != block
    ensures Taken(gs, block) == 0
  {
    if gs != [] {
      assert gs[|gs| - 1] in gs;
      NothingTaken(gs[..|gs| - 1], block);
    }
  }

  lemma AllocTight(s: State, gs: seq<Grant>, n: nat, ok: bool)
    requires Inv(s) && Held(s, gs) && Tight(s, gs)
    ensures Tight(Alloc(s, n, ok).0, GrantedBy(gs, n, Alloc(s, n, ok).1))
  {
    var (t, p) := Alloc(s, n, ok);
    if p != Null {
      TakenMore(gs, Grant(p.block, p.offset, RoundUp(n)), LastOf(t.blocks));
      if t.blocks != s.blocks {
        assert LastOf(t.blocks) !in s.heap.live;
        NothingTaken(gs, LastOf(t.blocks));
      }
    }
  }

  lemma {:induction false} RunTight(heap: Heap, size: nat, mallocOk: bool, ops: seq<Op>)
    requires forall b | b in heap.live :: b < heap.next
    ensures var s0 := Initial(heap, size, mallocOk); Tight(Run(s0, ops), Granted(s0, ops))
  {
    if ops != [] {
      var s0 := Initial(heap, size, mallocOk);
      var before := ops[..|ops| - 1];
      RunTight(heap, size, mallocOk, before);
      RunSafe(heap, size, mallocOk, before);
      match ops[|ops| - 1]
      case DoAlloc(n, ok) => AllocTight(Run(s0, before), Granted(s0, before), n, ok);
      case DoReset =>
      case DoDestroy =>
    }
  }

  // ----- one allocation after any run

  /**
   After any run a request is refused exactly when it asks for nothing, when there is no block, or when it does not
   fit in the last block and none can be added. A refused request changes nothing.
   */
  lemma RefusedExactlyWhen(heap: Heap, size: nat, mallocOk: bool, ops: seq<Op>, n: nat, ok: bool)
    requires forall b | b in heap.live :: b < heap.next
    ensures var s0 := Initial(heap, size, mallocOk);
            var s, gs := Run(s0, ops), Granted(s0, ops);
            var (t, p) := Alloc(s, n, ok);
            && |s.blocks| == |s.blockSizes| <= 256
            && (p == Null <==> n == 0 || s.blocks == [] || (!Fits(s, gs, n) && (|s.blocks| == 256 || !ok)))
            && (p == Null ==> t == s)
  {
    RunSafe(heap, size, mallocOk, ops);
    RunTight(heap, size, mallocOk, ops);
  }

  function Larger(a: nat, b: nat): nat { if a < b then b else a }

  /** Behind what callers hold of the last block, with no block added. */
  ghost predicate PlacedBehind(s: State, gs: seq<Grant>, t: State, p: Pointer)
    requires s.blocks != []
  {
    && p == Pointer(LastOf(s.blocks), Taken(gs, LastOf(s.blocks)))
    && t.blocks == s.blocks && t.blockSizes == s.blockSizes && t.heap == s.heap
  }

  /** At the start of one new block of twice the last size, or of the request's own size where that is larger. */
  ghost predicate PlacedInNewBlock(s: State, n: nat, t: State, p: Pointer)
    requires s.blockSizes != []
  {
    var size := Larger(2 * LastOf(s.blockSizes), RoundUp(n));
    && p.Pointer? && p.offset == 0 && p.block !in s.heap.live
    && t.blocks == s.blocks + [p.block] && t.blockSizes == s.blockSizes + [size]
    && t.heap.live == s.heap.live[p.block := size]
  }

  lemma AllocPlaces(s: State, gs: seq<Grant>, n: nat, ok: bool)
    requires Inv(s) && Tight(s, gs) && Alloc(s, n, ok).1 != Null
    ensures s.blocks != [] && s.blockSizes != []
    ensures var (t, p) := Alloc(s, n, ok);
            if Fits(s, gs, n) then PlacedBehind(s, gs, t, p) else PlacedInNewBlock(s, n, t, p)
  {
    assert s.heap.next !in s.heap.live;
  }

  /** A request that is granted is put behind the others where it fits, and in a new block where it does not. */
  lemma GrantedWhere(heap: Heap, size: nat, mallocOk: bool, ops: seq<Op>, n: nat, ok: bool)
    requires forall b | b in heap.live :: b < heap.next
    ensures var s0 := Initial(heap, size, mallocOk);
            var s, gs := Run(s0, ops), Granted(s0, ops);
            var (t, p) := Alloc(s, n, ok);
            p != Null ==>
              && s.blocks != [] && s.blockSizes != []
              && if Fits(s, gs, n) then PlacedBehind(s, gs, t, p) else PlacedInNewBlock(s, n, t, p)
  {
    RunSafe(heap, size, mallocOk, ops);
    RunTight(heap, size, mallocOk, ops);
    var s0 := Initial(heap, size, mallocOk);
    if Alloc(Run(s0, ops), n, ok).1 != Null {
      AllocPlaces(Run(s0, ops), Granted(s0, ops), n, ok);
    }
  }

  // ----- runs without failures

  /** No `malloc` fails and the arena is not destroyed. */
  predicate AllMallocsOk(ops: seq<Op>) {
    forall op | op in ops :: !op.DoDestroy? && (op.DoAlloc? ==> op.mallocOk)
  }

  lemma {:induction false} BlocksRemain(heap: Heap, size: nat, ops: seq<Op>)
    requires forall b | b in heap.live :: b < heap.next
    requires forall op | op in ops :: !op.DoDestroy?
    ensures Run(Initial(heap, size, true), ops).blocks != []
  {
    if ops != [] {
      assert ops[|ops| - 1] in ops;
      BlocksRemain(heap, size, ops[..|ops| - 1]);
    }
  }

  /** The requests of a run for which no block could be added because the arena held 256. */
  predicate NeverFull(heap: Heap, size: nat, ops: seq<Op>) {
    forall i | 0 <= i < |ops| :: |Run(Initial(heap, size, true), ops[..i]).blocks| < 256
  }

  /** From a successful init, while fewer than 256 blocks are held, every request for memory is granted. */
  lemma EveryRequestGranted(heap: Heap, size: nat, ops: seq<Op>, i: nat)
    requires forall b | b in heap.live :: b < heap.next
    requires AllMallocsOk(ops) && NeverFull(heap, size, ops)
    requires i < |ops| && ops[i].DoAlloc? && ops[i].n > 0
    ensures var s0 := Initial(heap, size, true);
            exists g :: Granted(s0, ops[..i + 1]) == Granted(s0, ops[..i]) + [g] && ops[i].n <= g.size < ops[i].n + 8
  {
    var s0 := Initial(heap, size, true);
    var before := ops[..i];
    assert ops[..i + 1][..i] == before && ops[i] in ops;
    BlocksRemain(heap, size, before);
    RefusedExactlyWhen(heap, size, true, before, ops[i].n, true);
    var p := Alloc(Run(s0, before), ops[i].n, true).1;
    var g := Grant(p.block, p.offset, RoundUp(ops[i].n));
    assert Granted(s0, ops[..i + 1]) == Granted(s0, before) + [g];
  }

  // ----- how far off the limit is

  function PowerOfTwo(k: nat): nat { if k == 0 then 1 else 2 * PowerOfTwo(k - 1) }

  lemma {:induction false} SizesGrow(sizes: seq<nat>, k: nat)
    requires Doubling(sizes) && k < |sizes| && sizes[0] >= 64
    ensures sizes[k] >= 64 * PowerOfTwo(k)
  {
    if k > 0 {
      SizesGrow(sizes, k - 1);
    }
  }

  /** To hold `k + 1` blocks, the last `malloc` must have succeeded for 64 times two to the power of `k`. */
  lemma ManyBlocksAreLarge(heap: Heap, size: nat, mallocOk: bool, ops: seq<Op>)
    requires forall b | b in heap.live :: b < heap.next
    ensures var s := Run(Initial(heap, size, mallocOk), ops);
            s.blocks != [] ==> |s.blocks| == |s.blockSizes|
                               && LastOf(s.blockSizes) >= 64 * PowerOfTwo(|s.blocks| - 1)
  {
    RunSafe(heap, size, mallocOk, ops);
    var s := Run(Initial(heap, size, mallocOk), ops);
    if s.blocks != [] {
      SizesGrow(s.blockSizes, |s.blockSizes| - 1);
    }
  }

  // ----- after a reset

  /**
   A reset keeps the first block and frees the others, so a request of up to the first block's size is granted at
   its start without any `malloc`.
   */
  lemma ResetReuses(heap: Heap, size: nat, mallocOk: bool, ops: seq<Op>, n: nat)
    requires forall b | b in heap.live :: b < heap.next
    ensures var s := Run(Initial(heap, size, mallocOk), ops);
            var t := Run(Initial(heap, size, mallocOk), ops + [DoReset]);
            && |s.blocks| == |s.blockSizes|
            && (s.blocks == [] ==> t == s)
            && (s.blocks != [] ==>
                  && t.blocks == [s.blocks[0]] && t.blockSizes == [s.blockSizes[0]]
                  && (forall b :: b in t.heap.live <==> b in s.heap.live && b !in s.blocks[1..])
                  && (0 < n && RoundUp(n) <= s.blockSizes[0] ==>
                        Alloc(t, n, false).1 == Pointer(s.blocks[0], 0)))
  {
    RunSafe(heap, size, mallocOk, ops);
    assert (ops + [DoReset])[..|ops|] == ops;
    var s := Run(Initial(heap, size, mallocOk), ops);
    ResetInv(s);
  }
}
