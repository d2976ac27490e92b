/**
 The bump allocator of `arena.c`. `State` is the C structure as a value together with the outstanding
 `malloc` blocks; the class updates the fields in place and is tied to the transitions on `State`.
 Runs of operations are judged by the history of what callers were handed.
 */
module Arena {

  const MAX_BLOCKS: nat := 256
  const MIN_BLOCK_SIZE: nat := 64
  const DEFAULT_BLOCK_SIZE: nat := 64 * 1024

  /** An address: a `malloc` block and an offset in it. */
  datatype Pointer = Null | Pointer(block: nat, offset: nat)

  /** `next` is the identity the next successful `malloc` returns; `live` holds the blocks not yet freed. */
  datatype Heap = Heap(next: nat, live: map<nat, nat>)

  datatype State = State(
    blocks: seq<nat>,
    blockSizes: seq<nat>,
    blockSize: nat,
    used: nat,
    totalAlloc: nat,
    heap: Heap)

  function RoundUp(n: nat): (r: nat)
    ensures r % 8 == 0 && n <= r < n + 8
  {
    (n + 7) / 8 * 8
  }

  function Malloc(heap: Heap, size: nat): Heap {
    Heap(heap.next + 1, heap.live[heap.next := size])
  }

  function Initial(heap: Heap, size: nat, mallocOk: bool): State {
    var blockSize := if size < MIN_BLOCK_SIZE then MIN_BLOCK_SIZE else size;
    if mallocOk then State([heap.next], [blockSize], blockSize, 0, 0, Malloc(heap, blockSize))
    else State([], [], blockSize, 0, 0, heap)
  }

  /** A block of twice the current size or of the size asked for, whichever is larger. */
  function Grow(s: State, minSize: nat): State {
    var newSize := if s.blockSize * 2 < minSize then minSize else s.blockSize * 2;
    s.(blocks := s.blocks + [s.heap.next], blockSizes := s.blockSizes + [newSize],
    blockSize := newSize, used := 0, heap := Malloc(s.heap, newSize))
  }

  predicate NeedsGrow(s: State, n: nat) {
    s.used + RoundUp(n) > s.blockSize
  }

  /** Whether `Alloc` hands out memory. */
  predicate Succeeds(s: State, n: nat, mallocOk: bool) {
    n != 0 && s.blocks != [] && (NeedsGrow(s, n) ==> |s.blocks| < MAX_BLOCKS && mallocOk)
  }

  function Bump(s: State, size: nat): State {
    s.(used := s.used + size, totalAlloc := s.totalAlloc + size)
  }

  function Alloc(s: State, n: nat, mallocOk: bool): (State, Pointer) {
    if !Succeeds(s, n, mallocOk) then (s, Null)
    else
      var t := if NeedsGrow(s, n) then Grow(s, RoundUp(n)) else s;
      assert t.blocks != [];
      (Bump(t, RoundUp(n)), Pointer(t.blocks[|t.blocks| - 1], t.used))
  }

  function Reset(s: State): State {
    if |s.blocks| == 0 || |s.blockSizes| == 0 then s.(used := 0, totalAlloc := 0)
    else
      State(s.blocks[..1], s.blockSizes[..1], s.blockSizes[0], 0, 0,
            s.heap.(live := s.heap.live - (set b | b in s.blocks[1..])))
  }

  function Destroy(s: State): State {
    State([], [], 0, 0, 0, s.heap.(live := s.heap.live - (set b | b in s.blocks)))
  }

  // ----- runs

  datatype Op = DoAlloc(n: nat, mallocOk: bool) | DoReset | DoDestroy

  /** Memory handed out: `size` is the rounded request. */
  datatype Grant = Grant(block: nat, offset: nat, size: nat)

  function Step(s: State, op: Op): State {
    match op
    case DoAlloc(n, ok) => Alloc(s, n, ok).0
    case DoReset => Reset(s)
    case DoDestroy => Destroy(s)
  }

  /** The state after `ops`, the latest operation last. */
  function Run(s: State, ops: seq<Op>): State {
    if ops == [] then s else Step(Run(s, ops[..|ops| - 1]), ops[|ops| - 1])
  }

  function GrantedBy(gs: seq<Grant>, n: nat, p: Pointer): seq<Grant> {
    if p == Null then gs else gs + [Grant(p.block, p.offset, RoundUp(n))]
  }

  /** The memory callers may still use after `ops`: what was handed out since the last reset or destroy. */
  function Granted(s: State, ops: seq<Op>): seq<Grant> {
    if ops == [] then []
    else
      var before, last := ops[..|ops| - 1], ops[|ops| - 1];
      match last
      case DoAlloc(n, ok) =>
        GrantedBy(Granted(s, before), n, Alloc(Run(s, before), n, ok).1)
      case DoReset => []
      case DoDestroy => []
  }

  function TotalSize(gs: seq<Grant>): nat {
    if gs == [] then 0 else TotalSize(gs[..|gs| - 1]) + gs[|gs| - 1].size
  }

  function SumOf(sizes: seq<nat>): nat {
    if sizes == [] then 0 else SumOf(sizes[..|sizes| - 1]) + sizes[|sizes| - 1]
  }

  ghost predicate Doubling(sizes: seq<nat>) {
    forall i | 0 < i < |sizes| :: sizes[i] >= 2 * sizes[i - 1]
  }

  /** The structure between operations. */
  ghost predicate Inv(s: State) {
    && |s.blocks| == |s.blockSizes| <= MAX_BLOCKS
    && (forall i, j | 0 <= i < j < |s.blocks| :: s.blocks[i] != s.blocks[j])
    && (forall i | 0 <= i < |s.blocks| ::
          s.blocks[i] in s.heap.live && s.heap.live[s.blocks[i]] == s.blockSizes[i])
    && (forall b | b in s.heap.live :: b < s.heap.next)
    && (s.blocks != [] ==> s.blockSize == s.blockSizes[|s.blocks| - 1] && s.blockSizes[0] >= MIN_BLOCK_SIZE)
    && (s.blocks == [] ==> s.used == 0 && s.totalAlloc == 0)
    && Doubling(s.blockSizes)
    && s.used <= s.blockSize && s.used % 8 == 0
  }

  predicate Overlap(g: Grant, h: Grant) {
    g.block == h.block && g.offset < h.offset + h.size && h.offset < g.offset + g.size
  }

  /** The memory callers hold, against the state. */
  ghost predicate Held(s: State, gs: seq<Grant>) {
    && (forall g | g in gs ::
          && g.size > 0 && g.size % 8 == 0 && g.offset % 8 == 0
          && g.block in s.blocks
          && g.block in s.heap.live && g.offset + g.size <= s.heap.live[g.block]
          && (g.block == s.blocks[|s.blocks| - 1] ==> g.offset + g.size <= s.used))
    && (forall i, j | 0 <= i < j < |gs| :: !Overlap(gs[i], gs[j]))
    && s.totalAlloc == TotalSize(gs)
  }

  /** The heap holds the arena's blocks and whatever it held outside the arena: nothing leaks. */
  ghost predicate Owns(s: State, others: set<nat>) {
    && others !! (set b | b in s.blocks)
    && s.heap.live.Keys == others + (set b | b in s.blocks)
  }

  lemma InitInv(heap: Heap, size: nat, mallocOk: bool)
    requires forall b | b in heap.live :: b < heap.next
    ensures Inv(Initial(heap, size, mallocOk))
    ensures Owns(Initial(heap, size, mallocOk), heap.live.Keys)
  {
    var s := Initial(heap, size, mallocOk);
    assert heap.next !in heap.live;
    assert (set b | b in s.blocks) == if mallocOk then {heap.next} else {};
  }

  lemma GrowInv(s: State, n: nat)
    requires Inv(s) && s.blocks != [] && |s.blocks| < MAX_BLOCKS
    ensures Inv(Grow(s, n)) && Grow(s, n).blockSize >= n
  {
    var t := Grow(s, n);
    assert s.heap.next !in s.heap.live;
    forall i | 0 < i < |t.blockSizes| ensures t.blockSizes[i] >= 2 * t.blockSizes[i - 1] {
      if i < |s.blockSizes| {
        assert s.blockSizes[i] >= 2 * s.blockSizes[i - 1];
      }
    }
  }

  lemma GrowHeld(s: State, n: nat, gs: seq<Grant>)
    requires Inv(s) && s.blocks != [] && Held(s, gs)
    ensures Held(Grow(s, n), gs)
  {
    var t := Grow(s, n);
    forall g | g in gs
      ensures g.block in t.blocks && g.block != t.blocks[|t.blocks| - 1]
      ensures g.block in t.heap.live && t.heap.live[g.block] == s.heap.live[g.block]
    {
      assert g.block in s.heap.live;
      var i :| 0 <= i < |s.blocks| && s.blocks[i] == g.block;
      assert t.blocks[i] == g.block;
    }
  }

  lemma EightsAdd(a: nat, b: nat)
    requires a % 8 == 0 && b % 8 == 0
    ensures (a + b) % 8 == 0
  {
  }

  lemma BumpInv(t: State, size: nat)
    requires Inv(t) && t.blocks != []
    requires size % 8 == 0 && t.used + size <= t.blockSize
    ensures Inv(Bump(t, size))
  {
    EightsAdd(t.used, size);
  }

  /** One successful allocation: new memory that overlaps nothing held. */
  lemma BumpKeeps(t: State, size: nat, gs: seq<Grant>)
    requires Inv(t) && t.blocks != [] && Held(t, gs)
    requires size > 0 && size % 8 == 0 && t.used + size <= t.blockSize
    ensures Held(Bump(t, size), gs + [Grant(t.blocks[|t.blocks| - 1], t.used, size)])
  {
    var last := |t.blocks| - 1;
    var g := Grant(t.blocks[last], t.used, size);
    assert (gs + [g])[..|gs|] == gs;
    assert t.blocks[last] in t.heap.live && t.heap.live[t.blocks[last]] == t.blockSize;
    forall i | 0 <= i < |gs| ensures !Overlap(gs[i], g) {
      assert gs[i] in gs;
    }
    forall h | h in gs && h.block == t.blocks[last] ensures h.offset + h.size <= Bump(t, size).used {
    }
  }

  /** A successful allocation bumps the structure, grown if need be. */
  lemma AllocBumps(s: State, n: nat, ok: bool) returns (t: State)
    requires Inv(s) && Succeeds(s, n, ok)
    ensures t == if NeedsGrow(s, n) then Grow(s, RoundUp(n)) else s
    ensures Inv(t) && t.blocks != [] && t.used + RoundUp(n) <= t.blockSize
    ensures Alloc(s, n, ok) == (Bump(t, RoundUp(n)), Pointer(t.blocks[|t.blocks| - 1], t.used))
  {
    t := if NeedsGrow(s, n) then Grow(s, RoundUp(n)) else s;
    if NeedsGrow(s, n) {
      GrowInv(s, RoundUp(n));
    }
  }

  lemma AllocInv(s: State, n: nat, ok: bool)
    requires Inv(s)
    ensures Inv(Alloc(s, n, ok).0)
  {
    if Succeeds(s, n, ok) {
      var t := AllocBumps(s, n, ok);
      BumpInv(t, RoundUp(n));
    }
  }

  lemma AllocKeeps(s: State, n: nat, ok: bool, gs: seq<Grant>)
    requires Inv(s) && Held(s, gs)
    ensures Inv(Alloc(s, n, ok).0)
    ensures Held(Alloc(s, n, ok).0, GrantedBy(gs, n, Alloc(s, n, ok).1))
  {
    AllocInv(s, n, ok);
    if Succeeds(s, n, ok) {
      var t := AllocBumps(s, n, ok);
      assert Held(t, gs) by {
        if NeedsGrow(s, n) {
          GrowHeld(s, RoundUp(n), gs);
        }
      }
      BumpKeeps(t, RoundUp(n), gs);
    }
  }

  lemma AllocOwns(s: State, n: nat, ok: bool, others: set<nat>)
    requires Inv(s) && Owns(s, others)
    ensures Owns(Alloc(s, n, ok).0, others)
  {
    var t := Alloc(s, n, ok).0;
    if Succeeds(s, n, ok) && NeedsGrow(s, n) {
      assert s.heap.next !in s.heap.live;
      assert t.blocks == s.blocks + [s.heap.next];
      assert (set b | b in t.blocks) == (set b | b in s.blocks) + {s.heap.next};
    }
  }

  lemma ResetInv(s: State)
    requires Inv(s)
    ensures Inv(Reset(s)) && Held(Reset(s), [])
  {
    if s.blocks != [] {
      assert s.blocks[0] !in s.blocks[1..];
      assert s.blocks[0] in s.heap.live;
    }
  }

  lemma HeadOnly(blocks: seq<nat>)
    requires blocks != [] && forall i, j | 0 <= i < j < |blocks| :: blocks[i] != blocks[j]
    ensures var freed := set b | b in blocks[1..];
            blocks[0] !in freed && (set b | b in blocks) == {blocks[0]} + freed
  {
    assert blocks == [blocks[0]] + blocks[1..];
  }

  lemma FreeTail(live: set<nat>, others: set<nat>, first: nat, freed: set<nat>)
    requires live == others + ({first} + freed) && others !! ({first} + freed) && first !in freed
    ensures live - freed == others + {first} && others !! {first}
  {
  }

  lemma ResetOwns(s: State, others: set<nat>)
    requires Inv(s) && Owns(s, others)
    ensures Owns(Reset(s), others)
  {
    if s.blocks != [] {
      var first, freed := s.blocks[0], set b | b in s.blocks[1..];
      HeadOnly(s.blocks);
      assert (set b | b in Reset(s).blocks) == {first};
      assert Reset(s).heap.live.Keys == s.heap.live.Keys - freed;
      FreeTail(s.heap.live.Keys, others, first, freed);
    }
  }

  lemma DestroyKeeps(s: State, others: set<nat>)
    requires Inv(s) && Owns(s, others)
    ensures Inv(Destroy(s)) && Held(Destroy(s), []) && Owns(Destroy(s), others)
  {
    assert (set b | b in Destroy(s).blocks) == {};
  }

  /**
   Over every sequence of allocations, failed or not, resets and destroys: held memory is aligned, inside its
   block and free of overlap, the running total is what callers hold, and no block is leaked or freed twice.
   */
  lemma {:induction false} RunSafe(heap: Heap, size: nat, mallocOk: bool, ops: seq<Op>)
    requires forall b | b in heap.live :: b < heap.next
    ensures var s0 := Initial(heap, size, mallocOk);
            && Inv(Run(s0, ops))
            && Held(Run(s0, ops), Granted(s0, ops))
            && Owns(Run(s0, ops), heap.live.Keys)
  {
    var s0 := Initial(heap, size, mallocOk);
    if ops == [] {
      InitInv(heap, size, mallocOk);
    } else {
      var before := ops[..|ops| - 1];
      RunSafe(heap, size, mallocOk, before);
      var s := Run(s0, before);
      match ops[|ops| - 1]
      case DoAlloc(n, ok) =>
        AllocKeeps(s, n, ok, Granted(s0, before));
        AllocOwns(s, n, ok, heap.live.Keys);
      case DoReset => ResetInv(s); ResetOwns(s, heap.live.Keys);
      case DoDestroy => DestroyKeeps(s, heap.live.Keys);
    }
  }

  /** All the blocks together are smaller than twice the last one. */
  lemma {:induction false} BlocksBounded(sizes: seq<nat>)
    requires sizes != [] && Doubling(sizes) && sizes[0] > 0
    ensures SumOf(sizes) < 2 * sizes[|sizes| - 1]
  {
    if |sizes| > 1 {
      var before := sizes[..|sizes| - 1];
      assert before[|before| - 1] == sizes[|sizes| - 2];
      BlocksBounded(before);
    } else {
      assert sizes[..0] == [];
    }
  }

  lemma RunBlocksBounded(heap: Heap, size: nat, mallocOk: bool, ops: seq<Op>)
    requires forall b | b in heap.live :: b < heap.next
    ensures var s := Run(Initial(heap, size, mallocOk), ops);
            s.blocks != [] ==> Doubling(s.blockSizes) && SumOf(s.blockSizes) < 2 * s.blockSize
  {
    RunSafe(heap, size, mallocOk, ops);
    var s := Run(Initial(heap, size, mallocOk), ops);
    if s.blocks != [] {
      BlocksBounded(s.blockSizes);
    }
  }

  /** Whether `t` has the blocks of `s` where `s` has them, with every block that was live still live and as large. */
  ghost predicate Extends(s: State, t: State) {
    && s.blocks <= t.blocks
    && s.blockSizes <= t.blockSizes
    && (forall b | b in s.heap.live :: b in t.heap.live && t.heap.live[b] == s.heap.live[b])
  }

  lemma AllocExtends(s: State, n: nat, ok: bool)
    requires Inv(s)
    ensures Extends(s, Alloc(s, n, ok).0)
  {
    assert s.heap.next !in s.heap.live;
  }

  /**
   Memory once handed out stays where it is: until the next reset or destroy no allocation, failed or not, moves,
   frees or resizes a block, and what callers hold still lies inside its block.
   */
  lemma {:induction false} AllocKeepsGrants(s: State, gs: seq<Grant>, ops: seq<Op>)
    requires Inv(s) && Held(s, gs)
    requires forall op | op in ops :: op.DoAlloc?
    ensures var t := Run(s, ops);
            && Inv(t)
            && Extends(s, t)
            && forall g | g in gs :: g.block in t.heap.live && g.offset + g.size <= t.heap.live[g.block]
  {
    if ops != [] {
      var before, last := ops[..|ops| - 1], ops[|ops| - 1];
      AllocKeepsGrants(s, gs, before);
      assert last in ops;
      var t := Run(s, before);
      AllocExtends(t, last.n, last.mallocOk);
      AllocInv(t, last.n, last.mallocOk);
    }
  }

  // ----- the structure itself

  /** `CBMArena`, with the process heap it allocates from. Entries of `blocks` past `nblocks` are unused. */
  class CbmArena {
    const blocks: array<nat>
    const blockSizes: array<nat>
    var nblocks: nat
    var blockSize: nat
    var used: nat
    var totalAlloc: nat
    var heap: Heap

    ghost predicate Shaped()
      reads this
    {
      blocks.Length == blockSizes.Length == MAX_BLOCKS && blocks != blockSizes && nblocks <= MAX_BLOCKS
    }

    ghost function Model(): State
      requires Shaped()
      reads this, blocks, blockSizes
    {
      State(blocks[..nblocks], blockSizes[..nblocks], blockSize, used, totalAlloc, heap)
    }

    constructor InitSized(h: Heap, size: nat, mallocOk: bool)
      ensures Shaped() && Model() == Initial(h, size, mallocOk)
      ensures fresh(blocks) && fresh(blockSizes)
    {
      var actual := if size < MIN_BLOCK_SIZE then MIN_BLOCK_SIZE else size;
      blocks := new nat[MAX_BLOCKS](_ => 0);
      blockSizes := new nat[MAX_BLOCKS](_ => 0);
      nblocks, blockSize, used, totalAlloc, heap := 0, actual, 0, 0, h;
      new;
      if mallocOk {
        blocks[0] := heap.next;
        heap := Malloc(heap, actual);
        blockSizes[0] := actual;
        nblocks := 1;
        assert blocks[..1] == [h.next] && blockSizes[..1] == [actual];
      }
    }

    constructor Init(h: Heap, mallocOk: bool)
      ensures Shaped() && Model() == Initial(h, DEFAULT_BLOCK_SIZE, mallocOk)
      ensures fresh(blocks) && fresh(blockSizes)
    {
      blocks := new nat[MAX_BLOCKS](_ => 0);
      blockSizes := new nat[MAX_BLOCKS](_ => 0);
      nblocks, blockSize, used, totalAlloc, heap := 0, DEFAULT_BLOCK_SIZE, 0, 0, h;
      new;
      if mallocOk {
        blocks[0] := heap.next;
        heap := Malloc(heap, DEFAULT_BLOCK_SIZE);
        blockSizes[0] := DEFAULT_BLOCK_SIZE;
        nblocks := 1;
        assert blocks[..1] == [h.next] && blockSizes[..1] == [DEFAULT_BLOCK_SIZE];
      }
    }

    method GrowBy(minSize: nat, mallocOk: bool) returns (ok: bool)
      requires Shaped()
      modifies this, blocks, blockSizes
      ensures Shaped()
      ensures ok == (old(nblocks) < MAX_BLOCKS && mallocOk)
      ensures Model() == if ok then Grow(old(Model()), minSize) else old(Model())
    {
      if nblocks >= MAX_BLOCKS {
        return false;
      }
      var newSize := blockSize * 2;
      if newSize < minSize {
        newSize := minSize;
      }
      if !mallocOk {
        return false;
      }
      var block := heap.next;
      heap := Malloc(heap, newSize);
      blocks[nblocks] := block;
      blockSizes[nblocks] := newSize;
      nblocks := nblocks + 1;
      blockSize := newSize;
      used := 0;
      assert blocks[..nblocks] == old(blocks[..nblocks]) + [block];
      assert blockSizes[..nblocks] == old(blockSizes[..nblocks]) + [newSize];
      return true;
    }

    method Allocate(n: nat, mallocOk: bool) returns (p: Pointer)
      requires Shaped()
      modifies this, blocks, blockSizes
      ensures Shaped()
      ensures (Model(), p) == Alloc(old(Model()), n, mallocOk)
    {
      if n == 0 {
        return Null;
      }
      var rounded := RoundUp(n);
      if nblocks == 0 {
        return Null;
      }
      if used + rounded > blockSize {
        var grown := GrowBy(rounded, mallocOk);
        if !grown {
          return Null;
        }
      }
      p := Pointer(blocks[nblocks - 1], used);
      used := used + rounded;
      totalAlloc := totalAlloc + rounded;
    }

    method ResetAll()
      requires Shaped()
      modifies this, blocks, blockSizes
      ensures Shaped()
      ensures Model() == Reset(old(Model()))
    {
      ghost var was := Model();
      var i := 1;
      while i < nblocks
        invariant 1 <= i && (nblocks > 0 ==> i <= nblocks)
        invariant nblocks == old(nblocks) && used == old(used) && totalAlloc == old(totalAlloc)
        invariant blockSize == old(blockSize)
        invariant nblocks > 0 ==> blocks[..1] == was.blocks[..1] && blockSizes[..1] == was.blockSizes[..1]
        invariant forall k | i <= k < nblocks :: blocks[k] == was.blocks[k]
        invariant nblocks > 0 ==> heap == was.heap.(live := was.heap.live - (set b | b in was.blocks[1..i]))
        invariant nblocks == 0 ==> heap == was.heap
      {
        assert was.blocks[1..i + 1] == was.blocks[1..i] + [was.blocks[i]];
        heap := heap.(live := heap.live - {blocks[i]});
        blocks[i] := 0;
        blockSizes[i] := 0;
        i := i + 1;
      }
      if nblocks > 1 {
        nblocks := 1;
      }
      used := 0;
      totalAlloc := 0;
      if nblocks == 1 {
        assert was.blocks[1..i] == was.blocks[1..];
        blockSize := blockSizes[0];
      }
    }

    method DestroyAll()
      requires Shaped()
      modifies this, blocks, blockSizes
      ensures Shaped()
      ensures Model() == Destroy(old(Model()))
    {
      ghost var was := Model();
      for i := 0 to nblocks
        invariant nblocks == old(nblocks) && blocks[..nblocks] == was.blocks
        invariant heap == was.heap.(live := was.heap.live - (set b | b in was.blocks[..i]))
      {
        assert was.blocks[..i + 1] == was.blocks[..i] + [was.blocks[i]];
        heap := heap.(live := heap.live - {blocks[i]});
      }
      assert was.blocks[..nblocks] == was.blocks;
      forall k | 0 <= k < MAX_BLOCKS {
        blocks[k] := 0;
      }
      forall k | 0 <= k < MAX_BLOCKS {
        blockSizes[k] := 0;
      }
      nblocks, blockSize, used, totalAlloc := 0, 0, 0, 0;
    }

    method Total() returns (total: nat)
      requires Shaped()
      ensures total == Model().totalAlloc
    {
      total := totalAlloc;
    }
  }
}
