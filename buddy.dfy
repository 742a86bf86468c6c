/**
 * The binary buddy physical page allocator (kernel/memory/buddy_allocator.c):
 * one metadata record per page (is_free, order), 21 LIFO free lists for
 * orders 0..20, blocks split in halves on allocation and merged with their
 * buddy (the index with bit `order` flipped) on release.
 *
 * The metadata is a separate array; the pages it would occupy at the start of
 * the managed range are still reserved. The doubly linked free lists are
 * sequences of block indices, head first.
 */
module BuddyAllocator {
  import opened Wrappers

  const MAX_ORDER: nat := 20
  const NUM_ORDERS: nat := 21
  const PAGE_SIZE: nat := 4096
  /** sizeof(buddy_block_t) on i386: two pointers, a bool and a byte, padded to 4. */
  const RECORD_SIZE: nat := 12
  /** What get_order_for_pages returns for a request above 2^20 pages. */
  const ORDER_FAILURE: nat := 0xFF
  const MAX_BLOCK_PAGES: nat := 0x10_0000

  // ---------------------------------------------------------------------------
  // Block index arithmetic
  // ---------------------------------------------------------------------------

  /** Bit k of i is set. */
  function BitSet(i: nat, k: nat): (r: bool)
    ensures r ==> i >= Pow2(k)
  {
    if k == 0 then i % 2 == 1 else BitSet(i / 2, k - 1)
  }

  /** i is a multiple of 2^k: its k low bits are clear. */
  function Aligned(i: nat, k: nat): bool
  {
    if k == 0 then true else i % 2 == 0 && Aligned(i / 2, k - 1)
  }

  /** GET_BUDDY_INDEX(i, k): i with bit k flipped. */
  function BuddyOf(i: nat, k: nat): nat
  {
    if BitSet(i, k) then i - Pow2(k) else i + Pow2(k)
  }

  /** Alignment to 2^k is the same as being a multiple of 2^k. */
  lemma {:induction false} AlignedIsMultiple(i: nat, k: nat)
    ensures Aligned(i, k) <==> i % Pow2(k) == 0
  {
    if k > 0 {
      AlignedIsMultiple(i / 2, k - 1);
      HalveMod(i, Pow2(k - 1));
    }
  }

  /** The remainder modulo 2p in terms of the remainder of the half modulo p. */
  lemma {:induction false} HalveMod(i: nat, p: nat)
    requires p > 0
    ensures i % (2 * p) == 2 * ((i / 2) % p) + i % 2
  {
    var q, r := (i / 2) / p, (i / 2) % p;
    assert i / 2 == q * p + r;
    assert i == q * (2 * p) + (2 * r + i % 2) by {
      assert q * (2 * p) == 2 * (q * p);
    }
    DivModUnique(i, 2 * p, q, 2 * r + i % 2);
  }

  /** The quotient and remainder are determined by any decomposition with the remainder in range. */
  lemma {:induction false} DivModUnique(a: int, d: int, q: int, r: int)
    requires d > 0 && a == q * d + r && 0 <= r < d
    ensures a % d == r && a / d == q
  {
    var q0, r0 := a / d, a % d;
    assert (q0 - q) * d == r - r0;
    MulBounds(q0 - q, d);
  }

  /** A nonzero multiple of d is at least d away from zero. */
  lemma {:induction false} MulBounds(m: int, d: int)
    requires d > 0
    ensures m >= 1 ==> m * d >= d
    ensures m <= -1 ==> m * d <= -d
  {
  }

  /** A block aligned to 2^(k+1) is aligned to 2^k and has bit k clear. */
  lemma {:induction false} AlignedStep(i: nat, k: nat)
    requires Aligned(i, k + 1)
    ensures Aligned(i, k) && !BitSet(i, k)
  {
    if k > 0 {
      AlignedStep(i / 2, k - 1);
    }
  }

  /** Alignment to 2^k implies alignment to every smaller power. */
  lemma {:induction false} AlignedLower(i: nat, j: nat, k: nat)
    requires j <= k && Aligned(i, k)
    ensures Aligned(i, j)
    decreases k
  {
    if j < k {
      AlignedStep(i, k - 1);
      AlignedLower(i, j, k - 1);
    }
  }

  /** An aligned block with bit k clear is aligned to 2^(k+1). */
  lemma {:induction false} AlignedUp(i: nat, k: nat)
    requires Aligned(i, k) && !BitSet(i, k)
    ensures Aligned(i, k + 1)
  {
    if k > 0 {
      AlignedUp(i / 2, k - 1);
    }
  }

  /** An aligned block with bit k set has its lower buddy aligned to 2^(k+1). */
  lemma {:induction false} AlignedDown(i: nat, k: nat)
    requires Aligned(i, k) && BitSet(i, k)
    ensures Aligned(i - Pow2(k), k + 1)
  {
    if k > 0 {
      AlignedDown(i / 2, k - 1);
      assert (i - Pow2(k)) / 2 == i / 2 - Pow2(k - 1);
    }
  }

  /** The upper buddy of an aligned block is aligned. */
  lemma {:induction false} AlignedPlus(i: nat, k: nat)
    requires Aligned(i, k)
    ensures Aligned(i + Pow2(k), k)
  {
    if k > 0 {
      AlignedPlus(i / 2, k - 1);
      assert (i + Pow2(k)) / 2 == i / 2 + Pow2(k - 1);
    }
  }

  /**
   * For a block aligned to its size the XOR buddy is the adjacent block of
   * the same size, and the lower of the two is aligned to twice the size.
   */
  lemma {:induction false} BuddyAdjacent(i: nat, k: nat)
    requires Aligned(i, k)
    ensures BuddyOf(i, k) == i + Pow2(k) || BuddyOf(i, k) + Pow2(k) == i
    ensures Aligned(BuddyOf(i, k), k)
    ensures Aligned(if BuddyOf(i, k) < i then BuddyOf(i, k) else i, k + 1)
  {
    if BitSet(i, k) {
      AlignedDown(i, k);
      AlignedStep(i - Pow2(k), k);
    } else {
      AlignedUp(i, k);
      AlignedPlus(i, k);
    }
  }

  /** Inside a block aligned to 2^so, the buddy at every lower order is the upper half. */
  lemma {:induction false} UpperBuddy(i: nat, c: nat, so: nat)
    requires c < so && Aligned(i, so)
    ensures BuddyOf(i, c) == i + Pow2(c) && Aligned(i, c) && Aligned(i + Pow2(c), c)
  {
    AlignedLower(i, c + 1, so);
    AlignedStep(i, c);
    AlignedPlus(i, c);
  }

  /** The first init block of the 256-page scenario is not aligned to its 128 pages. */
  lemma {:induction false} PageOneUnaligned()
    ensures !Aligned(1, 7)
  {
  }

  // ---------------------------------------------------------------------------
  // Orders
  // ---------------------------------------------------------------------------

  /** The least order from k up to 20 whose block holds n pages, or the failure code. */
  function OrderFrom(n: nat, k: nat): (r: nat)
    requires k <= MAX_ORDER + 1
    ensures r == ORDER_FAILURE || (k <= r <= MAX_ORDER && Pow2(r) >= n)
    ensures r == ORDER_FAILURE ==> forall j :: k <= j <= MAX_ORDER ==> Pow2(j) < n
    ensures r != ORDER_FAILURE ==> forall j :: k <= j < r ==> Pow2(j) < n
    decreases MAX_ORDER + 1 - k
  {
    if k > MAX_ORDER then ORDER_FAILURE
    else if Pow2(k) >= n then k
    else OrderFrom(n, k + 1)
  }

  /** get_order_for_pages: the least k <= 20 with 2^k >= n, or 0xFF when n > 2^20. */
  function OrderFor(n: nat): (r: nat)
    ensures r == ORDER_FAILURE || (r <= MAX_ORDER && n <= Pow2(r) <= MAX_BLOCK_PAGES)
    ensures r != ORDER_FAILURE ==> forall j :: 0 <= j < r ==> Pow2(j) < n
    ensures r == ORDER_FAILURE <==> n > MAX_BLOCK_PAGES
  {
    var r := OrderFrom(n, 0);
    Pow2Top();
    if r == ORDER_FAILURE then r else Pow2Monotone(r, MAX_ORDER); r
  }

  /** 2^20, the pages of the largest block. */
  lemma {:induction false} Pow2Top()
    ensures Pow2(MAX_ORDER) == MAX_BLOCK_PAGES
  {
    assert Pow2(5) == 32;
    Pow2Add(5, 5);
    Pow2Add(10, 10);
  }

  // ---------------------------------------------------------------------------
  // Free lists and their sizes
  // ---------------------------------------------------------------------------

  /** The pages of n blocks of order k, n * 2^k, summed without a product. */
  function Pages(n: nat, k: nat): (r: nat)
    ensures n > 0 ==> r >= Pow2(k)
  {
    if n == 0 then 0 else Pages(n - 1, k) + Pow2(k)
  }

  /** The pages held by per-order lists of blocks: the sum of |lists[k]| * 2^k. */
  function ListsSize(lists: seq<seq<nat>>): nat
  {
    SizeFrom(lists, 0)
  }

  /** The pages held by lists k and up. */
  function SizeFrom(lists: seq<seq<nat>>, k: nat): nat
    decreases |lists| - k
  {
    if k >= |lists| then 0 else Pages(|lists[k]|, k) + SizeFrom(lists, k + 1)
  }

  /** The number of blocks held by per-order lists. */
  function ListsCount(lists: seq<seq<nat>>): nat
  {
    CountFrom(lists, 0)
  }

  function CountFrom(lists: seq<seq<nat>>, k: nat): nat
    decreases |lists| - k
  {
    if k >= |lists| then 0 else |lists[k]| + CountFrom(lists, k + 1)
  }

  /** Replacing list k changes the size by the difference of the two lists' pages. */
  lemma {:induction false} SizeReplace(lists: seq<seq<nat>>, k: nat, l: seq<nat>, from: nat)
    requires from <= k < |lists|
    ensures SizeFrom(lists[k := l], from) + Pages(|lists[k]|, k) == SizeFrom(lists, from) + Pages(|l|, k)
    ensures CountFrom(lists[k := l], from) + |lists[k]| == CountFrom(lists, from) + |l|
    decreases k - from
  {
    if from < k {
      SizeReplace(lists, k, l, from + 1);
    } else {
      FromUnchanged(lists, k, l, k + 1);
    }
  }

  /** Lists after k do not see a change to list k. */
  lemma {:induction false} FromUnchanged(lists: seq<seq<nat>>, k: nat, l: seq<nat>, from: nat)
    requires k < from && k < |lists|
    ensures SizeFrom(lists[k := l], from) == SizeFrom(lists, from)
    ensures CountFrom(lists[k := l], from) == CountFrom(lists, from)
    decreases |lists| - from
  {
    if from < |lists| {
      FromUnchanged(lists, k, l, from + 1);
    }
  }

  /** Pushing a block on list k adds 2^k pages and one block. */
  lemma {:induction false} SizePush(lists: seq<seq<nat>>, k: nat, x: nat)
    requires k < |lists|
    ensures ListsSize(lists[k := [x] + lists[k]]) == ListsSize(lists) + Pow2(k)
    ensures ListsCount(lists[k := [x] + lists[k]]) == ListsCount(lists) + 1
  {
    SizeReplace(lists, k, [x] + lists[k], 0);
  }

  /** Taking one block off list k removes 2^k pages and one block. */
  lemma {:induction false} SizeTake(lists: seq<seq<nat>>, k: nat, l: seq<nat>)
    requires k < |lists| && |l| + 1 == |lists[k]|
    ensures ListsSize(lists[k := l]) + Pow2(k) == ListsSize(lists)
    ensures ListsCount(lists[k := l]) + 1 == ListsCount(lists)
  {
    SizeReplace(lists, k, l, 0);
  }

  /** The list with the first occurrence of x unlinked. */
  function Remove(l: seq<nat>, x: nat): (r: seq<nat>)
    ensures x in l ==> |r| + 1 == |l|
    ensures x !in l ==> r == l
  {
    if l == [] then []
    else if l[0] == x then l[1..]
    else [l[0]] + Remove(l[1..], x)
  }

  /** Unlinking x keeps every other block of the list and adds none. */
  lemma {:induction false} RemoveMembers(l: seq<nat>, x: nat)
    ensures forall y :: y in Remove(l, x) ==> y in l
    ensures forall y :: y in l && y != x ==> y in Remove(l, x)
  {
    if l != [] && l[0] != x {
      RemoveMembers(l[1..], x);
      assert Remove(l, x) == [l[0]] + Remove(l[1..], x);
    }
  }

  /** Unlinking from a list without repeats removes x itself and keeps it free of repeats. */
  lemma {:induction false} RemoveDistinct(l: seq<nat>, x: nat)
    requires Distinct(l)
    ensures x !in Remove(l, x) && Distinct(Remove(l, x))
  {
    RemoveMembers(l, x);
    if l != [] && l[0] != x {
      RemoveMembers(l[1..], x);
      RemoveDistinct(l[1..], x);
      assert l[0] !in l[1..];
    }
  }

  /** No block appears twice. */
  predicate Distinct(l: seq<nat>)
  {
    forall a, b :: 0 <= a < b < |l| ==> l[a] != l[b]
  }

  // ---------------------------------------------------------------------------
  // The metadata and its operations
  // ---------------------------------------------------------------------------

  /** One buddy_block_t: the free flag and the order, without the list links. */
  datatype Block = Block(isFree: bool, order: nat)

  /** The metadata array and the free lists, indexed by order. */
  datatype Store = Store(blocks: seq<Block>, lists: seq<seq<nat>>)

  /** The shape every operation needs: 21 lists and orders within range. */
  predicate Shaped(s: Store)
  {
    |s.lists| == NUM_ORDERS && forall i :: 0 <= i < |s.blocks| ==> s.blocks[i].order <= MAX_ORDER
  }

  /** Every listed block is a page of the range. */
  predicate InRange(s: Store)
  {
    |s.lists| == NUM_ORDERS && forall k :: 0 <= k < NUM_ORDERS ==> forall h :: h in s.lists[k] ==> h < |s.blocks|
  }

  /** add_to_free_list: the block becomes free with order k and heads list k. */
  function AddFree(s: Store, b: nat, k: nat): (r: Store)
    requires Shaped(s) && b < |s.blocks| && k <= MAX_ORDER
    ensures Shaped(r) && |r.blocks| == |s.blocks| && (InRange(s) ==> InRange(r))
  {
    Store(s.blocks[b := Block(true, k)], s.lists[k := [b] + s.lists[k]])
  }

  /** remove_from_free_list: the block is unlinked from list k and marked not free; its order stays. */
  function RemoveFree(s: Store, b: nat, k: nat): (r: Store)
    requires Shaped(s) && b < |s.blocks| && k <= MAX_ORDER
    ensures Shaped(r) && |r.blocks| == |s.blocks| && (InRange(s) ==> InRange(r))
  {
    RemoveMembers(s.lists[k], b);
    Store(s.blocks[b := s.blocks[b].(isFree := false)], s.lists[k := Remove(s.lists[k], b)])
  }

  /** The assignment block->order = k. */
  function SetOrder(s: Store, b: nat, k: nat): (r: Store)
    requires Shaped(s) && b < |s.blocks| && k <= MAX_ORDER
    ensures Shaped(r) && |r.blocks| == |s.blocks| && r.lists == s.lists
  {
    Store(s.blocks[b := s.blocks[b].(order := k)], s.lists)
  }

  /**
   * split_block from order cur down to target: at each order c the buddy
   * (b with bit c flipped), when it is a page of the range, is pushed free
   * on list c, and the block's order becomes c.
   */
  function Split(s: Store, b: nat, cur: nat, target: nat): (r: Store)
    requires Shaped(s) && b < |s.blocks| && cur <= MAX_ORDER
    ensures Shaped(r) && |r.blocks| == |s.blocks| && (InRange(s) ==> InRange(r))
    decreases cur
  {
    if cur <= target then s
    else
      var c := cur - 1;
      var bi := BuddyOf(b, c);
      var s1 := if bi < |s.blocks| then AddFree(s, bi, c) else s;
      Split(SetOrder(s1, b, c), b, c, target)
  }

  /**
   * merge_block from order k: while below order 20 and the buddy is a page of
   * the range that is free with the same order, the buddy is unlinked and the
   * lower of the two becomes the block, one order up. Gives the final block.
   */
  function Merge(s: Store, b: nat, k: nat): (r: (Store, nat))
    requires Shaped(s) && b < |s.blocks| && k <= MAX_ORDER
    ensures Shaped(r.0) && |r.0.blocks| == |s.blocks| && r.1 < |s.blocks| && (InRange(s) ==> InRange(r.0))
    decreases MAX_ORDER - k
  {
    if k >= MAX_ORDER then (s, b)
    else if !Joinable(s, b, k) then (s, b)
    else Merge(MergeOnce(s, b, k), Joined(b, k), k + 1)
  }

  /** The merge_block test: the buddy at order k is a page of the range, free and of order k. */
  predicate Joinable(s: Store, b: nat, k: nat)
  {
    BuddyOf(b, k) < |s.blocks| && s.blocks[BuddyOf(b, k)].isFree && s.blocks[BuddyOf(b, k)].order == k
  }

  /** The lower of a block and its buddy, which heads the merged block. */
  function Joined(b: nat, k: nat): (r: nat)
    ensures r == b || r == BuddyOf(b, k)
    ensures r <= b && r <= BuddyOf(b, k)
  {
    if BuddyOf(b, k) < b then BuddyOf(b, k) else b
  }

  /** One merge round: the buddy is unlinked from list k and the lower block takes order k + 1. */
  function MergeOnce(s: Store, b: nat, k: nat): (r: Store)
    requires Shaped(s) && b < |s.blocks| && k < MAX_ORDER && BuddyOf(b, k) < |s.blocks|
    ensures Shaped(r) && |r.blocks| == |s.blocks| && (InRange(s) ==> InRange(r))
  {
    SetOrder(RemoveFree(s, BuddyOf(b, k), k), Joined(b, k), k + 1)
  }

  /** The first order from k up to 20 whose free list is not empty. */
  function FirstNonEmpty(lists: seq<seq<nat>>, k: nat): (r: Option<nat>)
    requires |lists| == NUM_ORDERS && k <= MAX_ORDER + 1
    ensures r.Some? ==> k <= r.value <= MAX_ORDER && lists[r.value] != [] && forall j :: k <= j < r.value ==> lists[j] == []
    ensures r.None? ==> forall j :: k <= j <= MAX_ORDER ==> lists[j] == []
    decreases MAX_ORDER + 1 - k
  {
    if k > MAX_ORDER then None
    else if lists[k] != [] then Some(k)
    else FirstNonEmpty(lists, k + 1)
  }

  /**
   * buddy_alloc_pages(count) on the metadata: nothing for count 0, a request
   * above 2^20 pages or no block large enough; otherwise the head of the
   * first non-empty list at or above the order is unlinked, split down to the
   * order and marked allocated. Gives the block's index.
   */
  function Alloc(s: Store, count: nat): (r: (Store, Option<nat>))
    requires Shaped(s) && InRange(s)
    ensures Shaped(r.0) && |r.0.blocks| == |s.blocks| && InRange(r.0)
    ensures r.1.Some? ==> r.1.value < |s.blocks|
    ensures r.1.None? ==> r.0 == s
    ensures r.1.None? <==> count == 0 || OrderFor(count) == ORDER_FAILURE || forall j :: OrderFor(count) <= j <= MAX_ORDER ==> s.lists[j] == []
  {
    var order := OrderFor(count);
    if count == 0 || order == ORDER_FAILURE then (s, None)
    else match FirstNonEmpty(s.lists, order)
      case None => (s, None)
      case Some(so) =>
        var b := s.lists[so][0];
        assert b in s.lists[so];
        (Carve(RemoveFree(s, b, so), b, order), Some(b))
  }

  /** The end of buddy_alloc_pages on the unlinked block b: split down to the order when larger, then marked allocated. */
  function Carve(s: Store, b: nat, order: nat): (r: Store)
    requires Shaped(s) && b < |s.blocks|
    ensures Shaped(r) && |r.blocks| == |s.blocks| && !r.blocks[b].isFree && (InRange(s) ==> InRange(r))
  {
    var s2 := if s.blocks[b].order > order then Split(s, b, s.blocks[b].order, order) else s;
    Store(s2.blocks[b := s2.blocks[b].(isFree := false)], s2.lists)
  }

  /** The page index of an address of the managed range, if it is one. */
  function PageOf(start: nat, total: nat, paddr: nat): (r: Option<nat>)
    ensures r.Some? <==> paddr >= start && (paddr - start) / PAGE_SIZE < total
    ensures r.Some? ==> r.value == (paddr - start) / PAGE_SIZE
  {
    if paddr < start || (paddr - start) / PAGE_SIZE >= total then None
    else Some((paddr - start) / PAGE_SIZE)
  }

  /**
   * buddy_free_pages on the metadata: nothing for an address outside the
   * range or on a free record; otherwise the block merges with its buddies
   * and the result is pushed on the list of its final order.
   */
  function Free(s: Store, start: nat, paddr: nat): (r: Store)
    requires Shaped(s)
    ensures Shaped(r) && |r.blocks| == |s.blocks| && (InRange(s) ==> InRange(r))
  {
    match PageOf(start, |s.blocks|, paddr)
    case None => s
    case Some(p) =>
      if s.blocks[p].isFree then s
      else
        var (s1, nb) := Merge(s, p, s.blocks[p].order);
        AddFree(s1, nb, s1.blocks[nb].order)
  }

  // ---------------------------------------------------------------------------
  // ---------------------------------------------------------------------------
  // The invariant, under natural alignment
  // ---------------------------------------------------------------------------

  /**
   * The metadata agrees with the free lists: every block on list k is a
   * free record of order k, every free record is on the list of its order,
   * and no list repeats a block.
   */
  predicate WellFormed(s: Store)
  {
    Shaped(s)
    && (forall k :: 0 <= k < NUM_ORDERS ==> forall h :: h in s.lists[k] ==> h < |s.blocks| && s.blocks[h] == Block(true, k))
    && (forall i :: 0 <= i < |s.blocks| && s.blocks[i].isFree ==> i in s.lists[s.blocks[i].order])
    && (forall k :: 0 <= k < NUM_ORDERS ==> Distinct(s.lists[k]))
  }

  /**
   * Page h heads a block: its record is free (so it is on a free list), or
   * the block it heads is handed out, which alloc[h] records.
   */
  predicate Head(s: Store, alloc: seq<bool>, h: nat)
    requires h < |s.blocks| && h < |alloc|
  {
    s.blocks[h].isFree || alloc[h]
  }

  /**
   * The block headed by h, of the order in its record, lies after the
   * reserved pages and inside the range, is aligned to its size, and no
   * other of its pages heads a block.
   */
  predicate PlacedAt(s: Store, alloc: seq<bool>, reserved: nat, h: nat)
    requires h < |s.blocks| && |alloc| == |s.blocks|
  {
    reserved <= h && Aligned(h, s.blocks[h].order) && h + Pow2(s.blocks[h].order) <= |s.blocks|
    && forall p :: h < p < h + Pow2(s.blocks[h].order) ==> !Head(s, alloc, p)
  }

  /** Every block head is placed, so no two blocks overlap. */
  predicate Tiled(s: Store, alloc: seq<bool>, reserved: nat)
    requires |alloc| == |s.blocks|
  {
    forall h :: 0 <= h < |s.blocks| && Head(s, alloc, h) ==> PlacedAt(s, alloc, reserved, h)
  }

  /**
   * The allocator invariant: the metadata agrees with the free lists, a
   * handed-out block has a record that is not free, and the free and
   * handed-out blocks are naturally aligned and pairwise disjoint.
   */
  predicate Sound(s: Store, alloc: seq<bool>, reserved: nat)
  {
    WellFormed(s) && AllocAgree(s, alloc) && Tiled(s, alloc, reserved)
  }

  /** A handed-out block's record is not free. */
  predicate AllocAgree(s: Store, alloc: seq<bool>)
  {
    |alloc| == |s.blocks| && forall h :: 0 <= h < |alloc| && alloc[h] ==> !s.blocks[h].isFree
  }

  /** Powers of two grow strictly. */
  lemma {:induction false} Pow2Strict(j: nat, k: nat)
    requires j < k
    ensures Pow2(j) < Pow2(k)
  {
    Pow2Monotone(j + 1, k);
  }

  /**
   * When no page becomes a head and no head other than x changes its order,
   * every head other than x stays placed.
   */
  lemma {:induction false} TiledShrink(s: Store, a: seq<bool>, s2: Store, a2: seq<bool>, reserved: nat, x: nat)
    requires |a| == |s.blocks| && |s2.blocks| == |s.blocks| && |a2| == |s.blocks| && Tiled(s, a, reserved)
    requires forall p :: 0 <= p < |s.blocks| && Head(s2, a2, p) ==> Head(s, a, p)
    requires forall h :: 0 <= h < |s.blocks| && h != x && Head(s2, a2, h) ==> s2.blocks[h].order == s.blocks[h].order
    ensures forall h :: 0 <= h < |s.blocks| && h != x && Head(s2, a2, h) ==> PlacedAt(s2, a2, reserved, h)
  {
    forall h | 0 <= h < |s.blocks| && h != x && Head(s2, a2, h)
      ensures PlacedAt(s2, a2, reserved, h)
    {
      assert PlacedAt(s, a, reserved, h);
    }
  }

  // ---------------------------------------------------------------------------
  // Each step of alloc and free keeps the invariant
  // ---------------------------------------------------------------------------

  /** remove_from_free_list on a listed block keeps the metadata and the lists in agreement. */
  lemma {:induction false} RemoveWellFormed(s: Store, b: nat, k: nat)
    requires WellFormed(s) && k <= MAX_ORDER && b in s.lists[k]
    ensures b < |s.blocks| && s.blocks[b] == Block(true, k)
    ensures WellFormed(RemoveFree(s, b, k))
    ensures forall j :: 0 <= j < NUM_ORDERS ==> b !in RemoveFree(s, b, k).lists[j]
    ensures |RemoveFree(s, b, k).lists[k]| + 1 == |s.lists[k]|
  {
    var s1 := RemoveFree(s, b, k);
    assert s1.lists[k] == Remove(s.lists[k], b);
    RemoveMembers(s.lists[k], b);
    assert Distinct(s1.lists[k]) && b !in s1.lists[k] by {
      RemoveDistinct(s.lists[k], b);
    }
    forall j, h | 0 <= j < NUM_ORDERS && h in s1.lists[j]
      ensures h < |s1.blocks| && s1.blocks[h] == Block(true, j)
    {
      assert h in s.lists[j];
    }
    forall i | 0 <= i < |s1.blocks| && s1.blocks[i].isFree
      ensures i in s1.lists[s1.blocks[i].order]
    {
      assert i != b && i in s.lists[s.blocks[i].order];
    }
  }

  /** add_to_free_list on a record that is not free keeps the metadata and the lists in agreement. */
  lemma {:induction false} AddWellFormed(s: Store, b: nat, k: nat)
    requires WellFormed(s) && k <= MAX_ORDER && b < |s.blocks| && !s.blocks[b].isFree
    ensures WellFormed(AddFree(s, b, k))
  {
    var s2 := AddFree(s, b, k);
    assert forall j :: 0 <= j < NUM_ORDERS ==> b !in s.lists[j];
    forall j, h | 0 <= j < NUM_ORDERS && h in s2.lists[j]
      ensures h < |s2.blocks| && s2.blocks[h] == Block(true, j)
    {
      if h != b || j != k {
        assert h in s.lists[j];
      }
    }
    forall i | 0 <= i < |s2.blocks| && s2.blocks[i].isFree
      ensures i in s2.lists[s2.blocks[i].order]
    {
      if i != b {
        assert i in s.lists[s.blocks[i].order];
      }
    }
    forall j | 0 <= j < NUM_ORDERS
      ensures Distinct(s2.lists[j])
    {
      if j == k {
        assert Distinct(s.lists[k]);
      }
    }
  }

  /** Changing the order of a record that is not free keeps the agreement. */
  lemma {:induction false} SetOrderWellFormed(s: Store, b: nat, k: nat)
    requires WellFormed(s) && k <= MAX_ORDER && b < |s.blocks| && !s.blocks[b].isFree
    ensures WellFormed(SetOrder(s, b, k))
  {
    var s2 := SetOrder(s, b, k);
    forall j, h | 0 <= j < NUM_ORDERS && h in s2.lists[j]
      ensures h < |s2.blocks| && s2.blocks[h] == Block(true, j)
    {
      assert h in s.lists[j];
    }
    forall i | 0 <= i < |s2.blocks| && s2.blocks[i].isFree
      ensures i in s2.lists[s2.blocks[i].order]
    {
      assert i in s.lists[s.blocks[i].order];
    }
  }

  /** Unlinking a free block from list k hands it out, keeping the invariant; the lists lose 2^k pages. */
  lemma {:induction false} TakeStep(s: Store, alloc: seq<bool>, reserved: nat, b: nat, k: nat)
    requires Sound(s, alloc, reserved) && k <= MAX_ORDER && b in s.lists[k]
    ensures b < |s.blocks| && s.blocks[b] == Block(true, k) && !alloc[b]
    ensures Sound(RemoveFree(s, b, k), alloc[b := true], reserved)
    ensures ListsSize(RemoveFree(s, b, k).lists) + Pow2(k) == ListsSize(s.lists)
  {
    var s1 := RemoveFree(s, b, k);
    var a1 := alloc[b := true];
    RemoveWellFormed(s, b, k);
    assert forall h :: 0 <= h < |a1| && a1[h] ==> !s1.blocks[h].isFree;
    assert forall p :: 0 <= p < |s.blocks| ==> Head(s1, a1, p) == Head(s, alloc, p);
    TiledShrink(s, alloc, s1, a1, reserved, b);
    assert PlacedAt(s, alloc, reserved, b);
    assert PlacedAt(s1, a1, reserved, b);
    SizeTake(s.lists, k, s1.lists[k]);
  }

  /** One split round on the metadata: the upper half of b is pushed free on list c and b takes order c. */
  function SplitOnce(s: Store, b: nat, c: nat): (r: Store)
    requires Shaped(s) && b + Pow2(c) < |s.blocks| && c <= MAX_ORDER
    ensures Shaped(r) && |r.blocks| == |s.blocks|
    ensures r.lists == s.lists[c := [b + Pow2(c)] + s.lists[c]]
  {
    SetOrder(AddFree(s, b + Pow2(c), c), b, c)
  }

  /**
   * One round of split_block on a handed-out block of order c + 1: its upper
   * half is a page of the range that heads no block, so pushing it free on
   * list c keeps the invariant and adds 2^c pages to the lists.
   */
  lemma {:induction false} SplitStep(s: Store, alloc: seq<bool>, reserved: nat, b: nat, c: nat)
    requires Sound(s, alloc, reserved) && b < |s.blocks| && alloc[b] && s.blocks[b] == Block(false, c + 1) && c < MAX_ORDER
    ensures Aligned(b, c + 1) && b + Pow2(c) < |s.blocks|
    ensures Sound(SplitOnce(s, b, c), alloc, reserved) && SplitOnce(s, b, c).blocks[b] == Block(false, c)
    ensures ListsSize(SplitOnce(s, b, c).lists) == ListsSize(s.lists) + Pow2(c)
  {
    var bi := b + Pow2(c);
    Pow2Double(c);
    assert PlacedAt(s, alloc, reserved, b);
    assert !Head(s, alloc, bi);
    SplitStepAgrees(s, alloc, b, c, bi);
    SplitStepTiled(s, alloc, reserved, b, c);
    SizePush(s.lists, c, bi);
  }

  /** The metadata half of SplitStep: the pushed upper half is a new free block of order c. */
  lemma {:induction false} SplitStepAgrees(s: Store, alloc: seq<bool>, b: nat, c: nat, bi: nat)
    requires WellFormed(s) && |alloc| == |s.blocks| && c <= MAX_ORDER
    requires forall h :: 0 <= h < |alloc| && alloc[h] ==> !s.blocks[h].isFree
    requires b < bi < |s.blocks| && s.blocks[b] == Block(false, c + 1) && !s.blocks[bi].isFree && !alloc[bi]
    ensures WellFormed(SetOrder(AddFree(s, bi, c), b, c))
    ensures forall h :: 0 <= h < |alloc| && alloc[h] ==> !SetOrder(AddFree(s, bi, c), b, c).blocks[h].isFree
  {
    AddWellFormed(s, bi, c);
    SetOrderWellFormed(AddFree(s, bi, c), b, c);
  }

  /** The placement half of SplitStep: both halves are placed and no other block sees the new head. */
  lemma {:induction false} SplitStepTiled(s: Store, alloc: seq<bool>, reserved: nat, b: nat, c: nat)
    requires Shaped(s) && |alloc| == |s.blocks| && Tiled(s, alloc, reserved) && c < MAX_ORDER
    requires b < |s.blocks| && alloc[b] && s.blocks[b] == Block(false, c + 1)
    requires b + Pow2(c) < |s.blocks| && Pow2(c + 1) == 2 * Pow2(c)
    ensures Tiled(SplitOnce(s, b, c), alloc, reserved)
  {
    var bi := b + Pow2(c);
    var s2 := SplitOnce(s, b, c);
    assert PlacedAt(s, alloc, reserved, b);
    AlignedStep(b, c);
    AlignedPlus(b, c);
    forall h | 0 <= h < |s2.blocks| && Head(s2, alloc, h)
      ensures PlacedAt(s2, alloc, reserved, h)
    {
      if h == b || h == bi {
        forall p | h < p < h + Pow2(c)
          ensures !Head(s2, alloc, p)
        {
          assert !Head(s, alloc, p);
        }
      } else {
        assert Head(s, alloc, h) && PlacedAt(s, alloc, reserved, h);
        assert !(b < h < b + Pow2(c + 1));
        assert !(h < b < h + Pow2(s.blocks[h].order));
        forall p | h < p < h + Pow2(s2.blocks[h].order)
          ensures !Head(s2, alloc, p)
        {
          assert p != b && p != bi;
          assert !Head(s, alloc, p);
        }
      }
    }
  }

  /**
   * One round of merge_block on a handed-out block of order k whose buddy is
   * a free block of order k: the buddy leaves list k, the lower of the two
   * heads the merged block of order k + 1, and the lists lose 2^k pages.
   */
  lemma {:induction false} MergeStep(s: Store, alloc: seq<bool>, reserved: nat, b: nat, k: nat)
    requires Sound(s, alloc, reserved) && b < |s.blocks| && alloc[b] && s.blocks[b] == Block(false, k) && k < MAX_ORDER
    requires Joinable(s, b, k)
    ensures Sound(MergeOnce(s, b, k), alloc[b := false][Joined(b, k) := true], reserved)
    ensures MergeOnce(s, b, k).blocks[Joined(b, k)] == Block(false, k + 1)
    ensures Joined(b, k) == b || !alloc[Joined(b, k)]
    ensures ListsSize(MergeOnce(s, b, k).lists) + Pow2(k) == ListsSize(s.lists)
  {
    var bd := BuddyOf(b, k);
    var nb := Joined(b, k);
    var s2 := MergeOnce(s, b, k);
    var a2 := alloc[b := false][nb := true];
    assert bd in s.lists[k];
    assert bd != b && !alloc[bd];
    RemoveWellFormed(s, bd, k);
    SetOrderWellFormed(RemoveFree(s, bd, k), nb, k + 1);
    assert forall h :: 0 <= h < |a2| && a2[h] ==> !s2.blocks[h].isFree;
    MergeStepTiled(s, alloc, reserved, b, k);
    SizeTake(s.lists, k, s2.lists[k]);
  }

  /** The placement half of MergeStep: the merged block covers both halves and heads nothing new. */
  lemma {:induction false} MergeStepTiled(s: Store, alloc: seq<bool>, reserved: nat, b: nat, k: nat)
    requires Shaped(s) && |alloc| == |s.blocks| && Tiled(s, alloc, reserved) && k < MAX_ORDER
    requires forall h :: 0 <= h < |alloc| && alloc[h] ==> !s.blocks[h].isFree
    requires b < |s.blocks| && alloc[b] && s.blocks[b] == Block(false, k) && Joinable(s, b, k)
    ensures Tiled(MergeOnce(s, b, k), alloc[b := false][Joined(b, k) := true], reserved)
  {
    var bd := BuddyOf(b, k);
    var nb := Joined(b, k);
    var hi := if nb == b then bd else b;
    var s2 := MergeOnce(s, b, k);
    var a2 := alloc[b := false][nb := true];
    assert bd != b && !alloc[bd];
    assert PlacedAt(s, alloc, reserved, b) && PlacedAt(s, alloc, reserved, bd);
    BuddyAdjacent(b, k);
    Pow2Double(k);
    assert hi == nb + Pow2(k);
    assert !Head(s2, a2, hi);
    assert forall p :: 0 <= p < |s.blocks| && Head(s2, a2, p) ==> Head(s, alloc, p);
    TiledShrink(s, alloc, s2, a2, reserved, nb);
    forall p | nb < p < nb + Pow2(k + 1)
      ensures !Head(s2, a2, p)
    {
      if p != hi {
        assert !Head(s, alloc, p);
      }
    }
    assert PlacedAt(s2, a2, reserved, nb);
  }

  /** Pushing a handed-out block back on the list of its order frees it, adding 2^k pages. */
  lemma {:induction false} FreeEnd(s: Store, alloc: seq<bool>, reserved: nat, b: nat)
    requires Sound(s, alloc, reserved) && b < |s.blocks| && alloc[b]
    ensures Sound(AddFree(s, b, s.blocks[b].order), alloc[b := false], reserved)
    ensures ListsSize(AddFree(s, b, s.blocks[b].order).lists) == ListsSize(s.lists) + Pow2(s.blocks[b].order)
  {
    var k := s.blocks[b].order;
    var s2 := AddFree(s, b, k);
    var a2 := alloc[b := false];
    AddWellFormed(s, b, k);
    assert forall p :: 0 <= p < |s.blocks| ==> Head(s2, a2, p) == Head(s, alloc, p);
    TiledShrink(s, alloc, s2, a2, reserved, b);
    assert PlacedAt(s, alloc, reserved, b);
    assert PlacedAt(s2, a2, reserved, b);
    SizePush(s.lists, k, b);
  }

  // ---------------------------------------------------------------------------
  // Whole operations keep the invariant
  // ---------------------------------------------------------------------------

  /** The buddy of an aligned block's lower half is its upper half. */
  lemma {:induction false} UpperHalf(b: nat, c: nat)
    requires Aligned(b, c + 1)
    ensures BuddyOf(b, c) == b + Pow2(c)
  {
    UpperBuddy(b, c, c + 1);
  }

  /** One round of Split on a block aligned to its order and inside the range is SplitOnce. */
  lemma {:induction false} SplitUnfold(s: Store, b: nat, c: nat, target: nat)
    requires Shaped(s) && target <= c < MAX_ORDER && Aligned(b, c + 1) && b + Pow2(c) < |s.blocks|
    ensures Split(s, b, c + 1, target) == Split(SplitOnce(s, b, c), b, c, target)
  {
    UpperHalf(b, c);
  }

  /**
   * split_block keeps the invariant: the handed-out block ends at the target
   * order, and the lists gain the 2^cur - 2^target pages it gave up.
   */
  lemma {:induction false} SplitKeeps(s: Store, alloc: seq<bool>, reserved: nat, b: nat, cur: nat, target: nat)
    requires Sound(s, alloc, reserved) && b < |s.blocks| && alloc[b] && s.blocks[b] == Block(false, cur)
    requires target <= cur <= MAX_ORDER
    ensures Sound(Split(s, b, cur, target), alloc, reserved) && Split(s, b, cur, target).blocks[b] == Block(false, target)
    ensures ListsSize(Split(s, b, cur, target).lists) + Pow2(target) == ListsSize(s.lists) + Pow2(cur)
    decreases cur
  {
    if cur > target {
      var c := cur - 1;
      SplitStep(s, alloc, reserved, b, c);
      SplitUnfold(s, b, c, target);
      SplitKeeps(SplitOnce(s, b, c), alloc, reserved, b, c, target);
      Pow2Double(c);
    }
  }

  /** The handed-out blocks while merge_block runs: the current block stands for b. */
  ghost function MergeAlloc(s: Store, alloc: seq<bool>, b: nat, k: nat): (r: seq<bool>)
    requires Shaped(s) && b < |s.blocks| && k <= MAX_ORDER && |alloc| == |s.blocks|
    ensures |r| == |alloc|
    decreases MAX_ORDER - k
  {
    if k >= MAX_ORDER || !Joinable(s, b, k) then alloc
    else MergeAlloc(MergeOnce(s, b, k), alloc[b := false][Joined(b, k) := true], Joined(b, k), k + 1)
  }

  /**
   * merge_block keeps the invariant: the block it gives is handed out in
   * place of b, and the lists lose the 2^final - 2^k pages that joined it.
   */
  lemma {:induction false} MergeKeeps(s: Store, alloc: seq<bool>, reserved: nat, b: nat, k: nat)
    requires Sound(s, alloc, reserved) && b < |s.blocks| && alloc[b] && s.blocks[b] == Block(false, k) && k <= MAX_ORDER
    ensures Sound(Merge(s, b, k).0, MergeAlloc(s, alloc, b, k), reserved)
    ensures MergeAlloc(s, alloc, b, k)[Merge(s, b, k).1]
    ensures ListsSize(Merge(s, b, k).0.lists) + Pow2(Merge(s, b, k).0.blocks[Merge(s, b, k).1].order) == ListsSize(s.lists) + Pow2(k)
    decreases MAX_ORDER - k
  {
    if k < MAX_ORDER && Joinable(s, b, k) {
      var nb := Joined(b, k);
      MergeStep(s, alloc, reserved, b, k);
      MergeKeeps(MergeOnce(s, b, k), alloc[b := false][nb := true], reserved, nb, k + 1);
      Pow2Double(k);
    }
  }

  /** Once the merged block is taken back, the handed-out blocks are those before, less b. */
  lemma {:induction false} MergeAllocRelease(s: Store, alloc: seq<bool>, b: nat, k: nat)
    requires Shaped(s) && AllocAgree(s, alloc) && b < |s.blocks| && alloc[b] && k <= MAX_ORDER
    ensures MergeAlloc(s, alloc, b, k)[Merge(s, b, k).1 := false] == alloc[b := false]
    decreases MAX_ORDER - k
  {
    if k < MAX_ORDER && Joinable(s, b, k) {
      var nb := Joined(b, k);
      var a1 := alloc[b := false][nb := true];
      var s1 := MergeOnce(s, b, k);
      assert !alloc[BuddyOf(b, k)];
      assert AllocAgree(s1, a1);
      MergeAllocRelease(s1, a1, nb, k + 1);
      assert a1[nb := false] == alloc[b := false];
    }
  }

  /**
   * buddy_free_pages of a handed-out block keeps the invariant, and the free
   * lists gain exactly the block's 2^order pages.
   */
  lemma {:induction false} FreeKeeps(s: Store, alloc: seq<bool>, reserved: nat, start: nat, paddr: nat, p: nat)
    requires Sound(s, alloc, reserved) && PageOf(start, |s.blocks|, paddr) == Some(p) && alloc[p]
    ensures Sound(Free(s, start, paddr), alloc[p := false], reserved)
    ensures ListsSize(Free(s, start, paddr).lists) == ListsSize(s.lists) + Pow2(s.blocks[p].order)
  {
    var k := s.blocks[p].order;
    assert s.blocks[p] == Block(false, k);
    MergeKeeps(s, alloc, reserved, p, k);
    MergeAllocRelease(s, alloc, p, k);
    FreeEnd(Merge(s, p, k).0, MergeAlloc(s, alloc, p, k), reserved, Merge(s, p, k).1);
  }

  /**
   * A successful buddy_alloc_pages keeps the invariant: it hands out a block
   * that was not handed out, of the order get_order_for_pages gives, and the
   * free lists lose exactly its 2^order pages.
   */
  lemma {:induction false} AllocKeeps(s: Store, alloc: seq<bool>, reserved: nat, count: nat, b: nat)
    requires Sound(s, alloc, reserved) && Alloc(s, count).1 == Some(b)
    ensures b < |alloc| && !alloc[b]
    ensures Sound(Alloc(s, count).0, alloc[b := true], reserved)
    ensures Alloc(s, count).0.blocks[b] == Block(false, OrderFor(count))
    ensures ListsSize(Alloc(s, count).0.lists) + Pow2(OrderFor(count)) == ListsSize(s.lists)
  {
    var order := OrderFor(count);
    var so := FirstNonEmpty(s.lists, order).value;
    assert b == s.lists[so][0] && b in s.lists[so];
    TakeStep(s, alloc, reserved, b, so);
    var s1 := RemoveFree(s, b, so);
    if so > order {
      SplitKeeps(s1, alloc[b := true], reserved, b, so, order);
    }
    var s2 := if so > order then Split(s1, b, so, order) else s1;
    assert s2.blocks[b := s2.blocks[b].(isFree := false)] == s2.blocks;
    assert Carve(s1, b, order) == s2;
  }

  // ---------------------------------------------------------------------------
  // Split and merge undo each other
  // ---------------------------------------------------------------------------

  /** The upper half of the block at b of order c + 1. */
  function Half(b: nat, c: nat): nat
  {
    b + Pow2(c)
  }

  /**
   * x is a store in which the block at b has been split from order cur down
   * to order t over the lists l: for every order c in [t, cur) the upper
   * half b + 2^c is a free record of order c heading list c, above l[c];
   * every other list is l's.
   */
  predicate Pending(x: Store, b: nat, t: nat, cur: nat, l: seq<seq<nat>>)
  {
    |x.lists| == NUM_ORDERS && |l| == NUM_ORDERS
    && (forall c :: 0 <= c < NUM_ORDERS ==> x.lists[c] == if t <= c < cur then [Half(b, c)] + l[c] else l[c])
    && (forall c :: t <= c < cur ==> Half(b, c) < |x.blocks| && x.blocks[Half(b, c)] == Block(true, c))
  }

  /**
   * split_block of an aligned block of order cur inside the range pushes
   * exactly the upper halves b + 2^c, c from cur - 1 down to target, each on
   * its own list, gives b the target order, and touches no record outside
   * the block.
   */
  lemma {:induction false} SplitPending(s: Store, b: nat, cur: nat, target: nat)
    requires Shaped(s) && target <= cur <= MAX_ORDER && Aligned(b, cur) && b + Pow2(cur) <= |s.blocks|
    requires s.blocks[b].order == cur
    ensures Pending(Split(s, b, cur, target), b, target, cur, s.lists)
    ensures Split(s, b, cur, target).blocks[b] == Block(s.blocks[b].isFree, target)
    ensures forall i :: 0 <= i < |s.blocks| && (i < b || b + Pow2(cur) <= i) ==> Split(s, b, cur, target).blocks[i] == s.blocks[i]
    decreases cur
  {
    if cur > target {
      var c := cur - 1;
      Pow2Double(c);
      SplitUnfold(s, b, c, target);
      AlignedStep(b, c);
      var x1 := SplitOnce(s, b, c);
      SplitPending(x1, b, c, target);
      SplitPendingStep(s, b, c, target, Split(x1, b, c, target));
    } else {
      assert s.blocks[b] == Block(s.blocks[b].isFree, target);
    }
  }

  /** One more split round below a pending split extends it by the upper half at order c. */
  lemma {:induction false} SplitPendingStep(s: Store, b: nat, c: nat, target: nat, r: Store)
    requires Shaped(s) && target <= c < MAX_ORDER && b + Pow2(c + 1) <= |s.blocks| && Pow2(c + 1) == 2 * Pow2(c)
    requires |r.blocks| == |s.blocks| && Pending(r, b, target, c, SplitOnce(s, b, c).lists)
    requires forall i :: 0 <= i < |s.blocks| && (i < b || b + Pow2(c) <= i) ==> r.blocks[i] == SplitOnce(s, b, c).blocks[i]
    ensures Pending(r, b, target, c + 1, s.lists)
    ensures forall i :: 0 <= i < |s.blocks| && (i < b || b + Pow2(c + 1) <= i) ==> r.blocks[i] == s.blocks[i]
  {
    var x1 := SplitOnce(s, b, c);
    var hc := Half(b, c);
    assert r.blocks[hc] == x1.blocks[hc] == Block(true, c);
    forall c' | 0 <= c' < NUM_ORDERS
      ensures r.lists[c'] == if target <= c' < c + 1 then [Half(b, c')] + s.lists[c'] else s.lists[c']
    {
    }
    forall i | 0 <= i < |s.blocks| && (i < b || b + Pow2(c + 1) <= i)
      ensures r.blocks[i] == s.blocks[i]
    {
      assert r.blocks[i] == x1.blocks[i];
    }
  }

  /**
   * merge_block from order t on a block split down from order cur, whose
   * buddy at order cur does not join it, takes back every upper half the
   * split pushed: it ends with b itself at order cur and the lists l.
   */
  lemma {:induction false} MergePending(x: Store, b: nat, t: nat, cur: nat, l: seq<seq<nat>>)
    requires Shaped(x) && t <= cur <= MAX_ORDER && Aligned(b, cur) && b + Pow2(cur) <= |x.blocks|
    requires x.blocks[b] == Block(false, t) && Pending(x, b, t, cur, l)
    requires cur == MAX_ORDER || !Joinable(x, b, cur)
    ensures Merge(x, b, t).1 == b && Merge(x, b, t).0.lists == l && Merge(x, b, t).0.blocks[b] == Block(false, cur)
    decreases cur - t
  {
    if t == cur {
      PendingNone(x, b, t, l);
    } else {
      MergePendingStep(x, b, t, cur, l);
      MergePending(MergeOnce(x, b, t), b, t + 1, cur, l);
    }
  }

  /** A pending split over no orders has the lists l. */
  lemma {:induction false} PendingNone(x: Store, b: nat, t: nat, l: seq<seq<nat>>)
    requires Pending(x, b, t, t, l)
    ensures x.lists == l
  {
    forall c | 0 <= c < NUM_ORDERS
      ensures x.lists[c] == l[c]
    {
    }
  }

  /** One merge round on a pending split takes back the upper half at order t. */
  lemma {:induction false} MergePendingStep(x: Store, b: nat, t: nat, cur: nat, l: seq<seq<nat>>)
    requires Shaped(x) && t < cur <= MAX_ORDER && Aligned(b, cur) && b + Pow2(cur) <= |x.blocks|
    requires x.blocks[b] == Block(false, t) && Pending(x, b, t, cur, l)
    ensures BuddyOf(b, t) < |x.blocks| && Joinable(x, b, t) && Joined(b, t) == b
    ensures Pending(MergeOnce(x, b, t), b, t + 1, cur, l) && MergeOnce(x, b, t).blocks[b] == Block(false, t + 1)
    ensures Joinable(MergeOnce(x, b, t), b, cur) == Joinable(x, b, cur)
  {
    UpperBuddy(b, t, cur);
    assert x.blocks[Half(b, t)] == Block(true, t);
    var y := MergeOnce(x, b, t);
    assert y.lists[t] == l[t];
    forall c | t < c < cur
      ensures y.blocks[Half(b, c)] == x.blocks[Half(b, c)]
    {
      Pow2Strict(t, c);
    }
    BuddyAdjacent(b, cur);
    Pow2Strict(t, cur);
  }

  /** A listed block under the invariant: a free record of its list's order, aligned and inside the range. */
  lemma {:induction false} ListedPlaced(s: Store, alloc: seq<bool>, reserved: nat, b: nat, k: nat)
    requires Sound(s, alloc, reserved) && k < NUM_ORDERS && b in s.lists[k]
    ensures b < |s.blocks| && s.blocks[b] == Block(true, k)
    ensures reserved <= b && Aligned(b, k) && b + Pow2(k) <= |s.blocks|
  {
    assert Head(s, alloc, b);
    assert PlacedAt(s, alloc, reserved, b);
  }

  /**
   * An alloc followed by the free of the returned block restores the free
   * lists and the block's record, when the block is alone at its order: its
   * buddy there is not a free block of the same order.
   */
  lemma {:induction false} AllocFreeRoundTrip(s: Store, alloc: seq<bool>, reserved: nat, count: nat, b: nat, start: nat)
    requires Sound(s, alloc, reserved) && Alloc(s, count).1 == Some(b)
    requires s.blocks[b].order == MAX_ORDER || !Joinable(s, b, s.blocks[b].order)
    ensures Free(Alloc(s, count).0, start, start + b * PAGE_SIZE).lists == s.lists
    ensures Free(Alloc(s, count).0, start, start + b * PAGE_SIZE).blocks[b] == s.blocks[b]
  {
    var so := FirstNonEmpty(s.lists, OrderFor(count)).value;
    assert b == s.lists[so][0] && b in s.lists[so];
    ListedPlaced(s, alloc, reserved, b, so);
    RoundTripAt(s, count, b, so, start);
  }

  /** The round trip once the block, its order and its placement are known. */
  lemma {:induction false} RoundTripAt(s: Store, count: nat, b: nat, so: nat, start: nat)
    requires Shaped(s) && InRange(s) && count > 0 && OrderFor(count) != ORDER_FAILURE
    requires FirstNonEmpty(s.lists, OrderFor(count)) == Some(so) && s.lists[so][0] == b
    requires b < |s.blocks| && s.blocks[b] == Block(true, so) && Aligned(b, so) && b + Pow2(so) <= |s.blocks|
    requires so == MAX_ORDER || !Joinable(s, b, so)
    ensures Alloc(s, count).1 == Some(b)
    ensures Free(Alloc(s, count).0, start, start + b * PAGE_SIZE).lists == s.lists
    ensures Free(Alloc(s, count).0, start, start + b * PAGE_SIZE).blocks[b] == s.blocks[b]
  {
    var order := OrderFor(count);
    var s1 := RemoveFree(s, b, so);
    assert Alloc(s, count).0 == Carve(s1, b, order);
    AlignedOutside(b, so);
    assert so == MAX_ORDER || !Joinable(s1, b, so);
    CarveMerge(s1, b, so, order);
    var c := Carve(s1, b, order);
    FreeAt(c, start, b);
    var m := Merge(c, b, c.blocks[b].order);
    assert m.1 == b && m.0.lists == s1.lists && m.0.blocks[b] == Block(false, so);
    var f := AddFree(m.0, b, so);
    assert Free(Alloc(s, count).0, start, start + b * PAGE_SIZE) == f;
    assert f.lists == s1.lists[so := [b] + s1.lists[so]];
    RelinkHead(s.lists, so, b);
    assert f.blocks[b] == s.blocks[b];
  }

  /** Unlinking the head of a list and pushing it back gives the lists before. */
  lemma {:induction false} RelinkHead(lists: seq<seq<nat>>, k: nat, b: nat)
    requires k < |lists| && lists[k] != [] && lists[k][0] == b
    ensures lists[k := Remove(lists[k], b)][k := [b] + Remove(lists[k], b)] == lists
  {
    assert [b] + Remove(lists[k], b) == lists[k];
  }

  /** buddy_free_pages on the address of a page whose record is not free merges it and lists the result. */
  lemma {:induction false} FreeAt(s: Store, start: nat, b: nat)
    requires Shaped(s) && b < |s.blocks| && !s.blocks[b].isFree
    ensures Free(s, start, start + b * PAGE_SIZE)
         == AddFree(Merge(s, b, s.blocks[b].order).0, Merge(s, b, s.blocks[b].order).1,
                    Merge(s, b, s.blocks[b].order).0.blocks[Merge(s, b, s.blocks[b].order).1].order)
  {
    assert (start + b * PAGE_SIZE - start) / PAGE_SIZE == b;
  }

  /** The buddy of an aligned block lies outside it. */
  lemma {:induction false} AlignedOutside(b: nat, k: nat)
    requires Aligned(b, k)
    ensures BuddyOf(b, k) < b || b + Pow2(k) <= BuddyOf(b, k)
  {
    BuddyAdjacent(b, k);
  }

  /** merge_block undoes the split that carved the block: b comes back at order so with the lists before. */
  lemma {:induction false} CarveMerge(s: Store, b: nat, so: nat, order: nat)
    requires Shaped(s) && b < |s.blocks| && s.blocks[b] == Block(false, so) && order <= so <= MAX_ORDER
    requires Aligned(b, so) && b + Pow2(so) <= |s.blocks| && (so == MAX_ORDER || !Joinable(s, b, so))
    ensures Merge(Carve(s, b, order), b, Carve(s, b, order).blocks[b].order).1 == b
    ensures Merge(Carve(s, b, order), b, Carve(s, b, order).blocks[b].order).0.lists == s.lists
    ensures Merge(Carve(s, b, order), b, Carve(s, b, order).blocks[b].order).0.blocks[b] == Block(false, so)
  {
    var s2 := if so > order then Split(s, b, so, order) else s;
    if so > order {
      SplitPending(s, b, so, order);
      AlignedOutside(b, so);
      assert so == MAX_ORDER || !Joinable(s2, b, so);
    } else {
      assert Pending(s, b, so, so, s.lists);
    }
    assert s2.blocks[b := s2.blocks[b].(isFree := false)] == s2.blocks;
    assert Carve(s, b, order) == s2;
    MergePending(s2, b, if so > order then order else so, so, s.lists);
  }

  // ---------------------------------------------------------------------------
  // buddy_init: blocks laid back to back
  // ---------------------------------------------------------------------------

  /**
   * The inner loop of buddy_init from order k, where size is 2^(k+1): grow
   * while the next size still fits and k < 20.
   */
  function FitFrom(remaining: nat, k: nat, size: nat): (r: nat)
    requires k <= MAX_ORDER && size == Pow2(k + 1)
    ensures k <= r <= MAX_ORDER
    decreases MAX_ORDER - k
  {
    if size <= remaining && k < MAX_ORDER then FitFrom(remaining, k + 1, 2 * size) else k
  }

  /** The order buddy_init gives the block at a page with remaining pages from it to the end. */
  function LargestFit(remaining: nat): (r: nat)
    ensures r <= MAX_ORDER
    ensures remaining >= 1 ==> Pow2(r) <= remaining
  {
    FitFits(remaining, 0, 2);
    FitFrom(remaining, 0, 2)
  }

  /** The loop stops at a block that fits, when the one it started from does. */
  lemma {:induction false} FitFits(remaining: nat, k: nat, size: nat)
    requires k <= MAX_ORDER && size == Pow2(k + 1)
    ensures Pow2(k) <= remaining ==> Pow2(FitFrom(remaining, k, size)) <= remaining
    ensures FitFrom(remaining, k, size) == MAX_ORDER || remaining < Pow2(FitFrom(remaining, k, size) + 1)
    decreases MAX_ORDER - k
  {
    if size <= remaining && k < MAX_ORDER {
      FitFits(remaining, k + 1, 2 * size);
    }
  }

  /**
   * buddy_init's order is the largest power of two, up to 2^20, that fits:
   * 2^r fits in the remaining pages and, below order 20, 2^(r+1) does not.
   */
  lemma {:induction false} LargestFitIsLargest(remaining: nat)
    requires remaining >= 1
    ensures Pow2(LargestFit(remaining)) <= remaining
    ensures LargestFit(remaining) == MAX_ORDER || remaining < Pow2(LargestFit(remaining) + 1)
  {
    FitFits(remaining, 0, 2);
  }

  /** The pages covered by a sequence of (head, order) blocks. */
  function TileSum(t: seq<(nat, nat)>): nat
  {
    if t == [] then 0 else Pow2(t[0].1) + TileSum(t[1..])
  }

  /**
   * The blocks buddy_init creates from page cur up to total: each is the
   * largest power of two that fits in what remains, and the next one starts
   * where it ends.
   */
  function Tiles(cur: nat, total: nat): (r: seq<(nat, nat)>)
    decreases total - cur
  {
    if cur >= total then []
    else
      var k := LargestFit(total - cur);
      [(cur, k)] + Tiles(cur + Pow2(k), total)
  }

  /**
   * The blocks buddy_init lays from cur tile [cur, total) exactly: each
   * starts where the ones before it end, together they cover total - cur
   * pages, and each is the largest that fits in the pages from its head on.
   */
  lemma {:induction false} TilesExact(cur: nat, total: nat)
    requires cur <= total
    ensures forall i :: 0 <= i < |Tiles(cur, total)| ==> Tiles(cur, total)[i].0 == cur + TileSum(Tiles(cur, total)[..i])
    ensures forall i :: 0 <= i < |Tiles(cur, total)| ==> Tiles(cur, total)[i].0 < total && Tiles(cur, total)[i].1 == LargestFit(total - Tiles(cur, total)[i].0)
    ensures TileSum(Tiles(cur, total)) == total - cur
  {
    forall i | 0 <= i < |Tiles(cur, total)|
      ensures Tiles(cur, total)[i].0 == cur + TileSum(Tiles(cur, total)[..i])
      ensures Tiles(cur, total)[i].0 < total && Tiles(cur, total)[i].1 == LargestFit(total - Tiles(cur, total)[i].0)
    {
      TileIndex(cur, total, i);
    }
    TilesSum(cur, total);
  }

  /** The block at index i of the tiling from cur. */
  lemma {:induction false} TileIndex(cur: nat, total: nat, i: nat)
    requires i < |Tiles(cur, total)|
    ensures Tiles(cur, total)[i].0 == cur + TileSum(Tiles(cur, total)[..i])
    ensures Tiles(cur, total)[i].0 < total && Tiles(cur, total)[i].1 == LargestFit(total - Tiles(cur, total)[i].0)
    decreases i
  {
    var k := LargestFit(total - cur);
    var t := Tiles(cur, total);
    var rest := Tiles(cur + Pow2(k), total);
    assert t == [(cur, k)] + rest;
    assert t[1..] == rest;
    if i > 0 {
      TileSplit(t, rest, i);
      TileIndex(cur + Pow2(k), total, i - 1);
    } else {
      assert t[..i] == [];
    }
  }

  /** The tiling from cur covers total - cur pages. */
  lemma {:induction false} TilesSum(cur: nat, total: nat)
    requires cur <= total
    ensures TileSum(Tiles(cur, total)) == total - cur
    decreases total - cur
  {
    if cur < total {
      var k := LargestFit(total - cur);
      var t := Tiles(cur, total);
      assert t == [(cur, k)] + Tiles(cur + Pow2(k), total);
      assert t[1..] == Tiles(cur + Pow2(k), total);
      TilesSum(cur + Pow2(k), total);
    }
  }

  /** Every block of the tiling from cur lies in [cur, total). */
  lemma {:induction false} TilesBounds(cur: nat, total: nat)
    ensures forall i :: 0 <= i < |Tiles(cur, total)| ==> cur <= Tiles(cur, total)[i].0 && Tiles(cur, total)[i].0 + Pow2(Tiles(cur, total)[i].1) <= total && Tiles(cur, total)[i].1 <= MAX_ORDER
    decreases total - cur
  {
    if cur < total {
      var k := LargestFit(total - cur);
      var t := Tiles(cur, total);
      var rest := Tiles(cur + Pow2(k), total);
      assert t == [(cur, k)] + rest;
      TilesBounds(cur + Pow2(k), total);
      forall i | 0 <= i < |t|
        ensures cur <= t[i].0 && t[i].0 + Pow2(t[i].1) <= total && t[i].1 <= MAX_ORDER
      {
        if i > 0 {
          assert t[i] == rest[i - 1];
        }
      }
    }
  }

  /** The blocks before index i of [b] + rest: b and those before index i - 1 of rest. */
  lemma {:induction false} TileSplit(t: seq<(nat, nat)>, rest: seq<(nat, nat)>, i: nat)
    requires 0 < i <= |t| && t[1..] == rest
    ensures TileSum(t[..i]) == Pow2(t[0].1) + TileSum(rest[..i - 1])
    ensures i < |t| ==> t[i] == rest[i - 1]
  {
    assert t[..i][0] == t[0];
    assert t[..i][1..] == rest[..i - 1];
  }

  /** The metadata pages: total records of 12 bytes each, rounded up to pages. */
  function MetadataPages(total: nat): (r: nat)
    ensures r <= total
  {
    MetadataFits(total);
    (total * RECORD_SIZE + PAGE_SIZE - 1) / PAGE_SIZE
  }

  lemma {:induction false} MetadataFits(total: nat)
    ensures (total * RECORD_SIZE + PAGE_SIZE - 1) / PAGE_SIZE <= total
  {
    var q := (total * RECORD_SIZE + PAGE_SIZE - 1) / PAGE_SIZE;
    assert q * PAGE_SIZE <= total * RECORD_SIZE + PAGE_SIZE - 1;
    if q > total {
      MulBounds(q - total, PAGE_SIZE);
      assert false;
    }
  }

  /** The metadata after the first two loops of buddy_init: no free record and empty lists. */
  function Blank(total: nat): (r: Store)
    ensures Shaped(r) && InRange(r) && |r.blocks| == total
  {
    Store(seq(total, _ => Block(false, 0)), seq(NUM_ORDERS, _ => []))
  }

  /** add_to_free_list applied to each (head, order) block in turn. */
  function Lay(s: Store, t: seq<(nat, nat)>): (r: Store)
    requires Shaped(s) && forall i :: 0 <= i < |t| ==> t[i].0 < |s.blocks| && t[i].1 <= MAX_ORDER
    ensures Shaped(r) && |r.blocks| == |s.blocks| && (InRange(s) ==> InRange(r))
    decreases |t|
  {
    if t == [] then s else Lay(AddFree(s, t[0].0, t[0].1), t[1..])
  }

  /** The metadata buddy_init leaves for total pages. */
  function InitStore(total: nat): (r: Store)
    ensures Shaped(r) && InRange(r) && |r.blocks| == total
  {
    LaidFrom(Blank(total), MetadataPages(total), total)
  }

  /** The store after laying the tiling of [cur, total) on s. */
  function LaidFrom(s: Store, cur: nat, total: nat): (r: Store)
    requires Shaped(s) && total <= |s.blocks|
    ensures Shaped(r) && |r.blocks| == |s.blocks| && (InRange(s) ==> InRange(r))
  {
    TilesBounds(cur, total);
    Lay(s, Tiles(cur, total))
  }

  /** Empty lists hold no pages. */
  lemma {:induction false} BlankSize(lists: seq<seq<nat>>, k: nat)
    requires forall j :: 0 <= j < |lists| ==> lists[j] == []
    ensures SizeFrom(lists, k) == 0
    decreases |lists| - k
  {
    if k < |lists| {
      BlankSize(lists, k + 1);
    }
  }

  /** Laying the blocks adds their pages to the lists. */
  lemma {:induction false} LaySize(s: Store, t: seq<(nat, nat)>)
    requires Shaped(s) && forall i :: 0 <= i < |t| ==> t[i].0 < |s.blocks| && t[i].1 <= MAX_ORDER
    ensures ListsSize(Lay(s, t).lists) == ListsSize(s.lists) + TileSum(t)
    decreases |t|
  {
    if t != [] {
      SizePush(s.lists, t[0].1, t[0].0);
      LaySize(AddFree(s, t[0].0, t[0].1), t[1..]);
    }
  }

  /**
   * Laying the blocks from cur, over records from cur on that are not free,
   * keeps the metadata agreeing with the lists.
   */
  lemma {:induction false} LayWellFormed(s: Store, cur: nat, total: nat)
    requires WellFormed(s) && total <= |s.blocks|
    requires forall p :: cur <= p < total ==> !s.blocks[p].isFree
    requires forall i :: 0 <= i < |Tiles(cur, total)| ==> Tiles(cur, total)[i].0 < |s.blocks| && Tiles(cur, total)[i].1 <= MAX_ORDER
    ensures WellFormed(Lay(s, Tiles(cur, total)))
    decreases total - cur
  {
    if cur < total {
      var k := LargestFit(total - cur);
      var s1 := AddFree(s, cur, k);
      LayStep(s, cur, total, k);
      TilesBounds(cur + Pow2(k), total);
      var rest := Tiles(cur + Pow2(k), total);
      assert forall i :: 0 <= i < |rest| ==> rest[i].0 < |s1.blocks| && rest[i].1 <= MAX_ORDER;
      LayWellFormed(s1, cur + Pow2(k), total);
      LayUnfold(s, cur, total, k);
      assert Lay(s, Tiles(cur, total)) == Lay(s1, rest);
    }
  }

  /** The first block laid from cur keeps the metadata agreeing, and leaves the records after it not free. */
  lemma {:induction false} LayStep(s: Store, cur: nat, total: nat, k: nat)
    requires WellFormed(s) && cur < total <= |s.blocks| && k <= MAX_ORDER
    requires forall p :: cur <= p < total ==> !s.blocks[p].isFree
    ensures WellFormed(AddFree(s, cur, k))
    ensures forall p :: cur + Pow2(k) <= p < total ==> !AddFree(s, cur, k).blocks[p].isFree
  {
    AddWellFormed(s, cur, k);
  }

  /** Laying the tiling from cur lays its first block, then the tiling after it. */
  lemma {:induction false} LayUnfold(s: Store, cur: nat, total: nat, k: nat)
    requires Shaped(s) && cur < total <= |s.blocks| && k == LargestFit(total - cur)
    requires forall i :: 0 <= i < |Tiles(cur, total)| ==> Tiles(cur, total)[i].0 < |s.blocks| && Tiles(cur, total)[i].1 <= MAX_ORDER
    ensures Lay(s, Tiles(cur, total)) == Lay(AddFree(s, cur, k), Tiles(cur + Pow2(k), total))
  {
    TilesBounds(cur + Pow2(k), total);
    var t := Tiles(cur, total);
    assert t == [(cur, k)] + Tiles(cur + Pow2(k), total);
    assert t[1..] == Tiles(cur + Pow2(k), total);
  }

  /**
   * buddy_init's free blocks: the lists hold exactly the pages after the
   * metadata, and every record agrees with the lists.
   */
  lemma {:induction false} InitSize(total: nat)
    ensures ListsSize(InitStore(total).lists) + MetadataPages(total) == total
  {
    var t := Tiles(MetadataPages(total), total);
    var s := Blank(total);
    TilesBounds(MetadataPages(total), total);
    BlankSize(s.lists, 0);
    LaySize(s, t);
    TilesExact(MetadataPages(total), total);
  }

  lemma {:induction false} InitLaid(total: nat)
    ensures WellFormed(InitStore(total))
  {
    TilesBounds(MetadataPages(total), total);
    LayWellFormed(Blank(total), MetadataPages(total), total);
  }

  /**
   * buddy_init(0x100000, 0x200000): 256 pages and one metadata page, then
   * blocks of orders 7 down to 0 at pages 1, 129, 193, 225, 241, 249, 253 and
   * 255. The first is not aligned to its 128 pages.
   */
  lemma {:induction false} InitScenario()
    ensures ToU32(0x200000 - 0x100000) / PAGE_SIZE == 256 && MetadataPages(256) == 1
    ensures Tiles(1, 256) == [(1, 7), (129, 6), (193, 5), (225, 4), (241, 3), (249, 2), (253, 1), (255, 0)]
    ensures !Aligned(1, 7)
  {
    ScenarioPages();
    PageOneUnaligned();
    FitScenario();
    TileAt(255, 0, 256);
    TileAt(253, 1, 255);
    TileAt(249, 2, 253);
    TileAt(241, 3, 249);
    TileAt(225, 4, 241);
    TileAt(193, 5, 225);
    TileAt(129, 6, 193);
    TileAt(1, 7, 129);
    assert Tiles(256, 256) == [];
  }

  /** The scenario's 1 MiB range holds 256 pages, and their records fit in one page. */
  lemma {:induction false} ScenarioPages()
    ensures ToU32(0x200000 - 0x100000) / PAGE_SIZE == 256 && MetadataPages(256) == 1
  {
    assert ToU32(0x100000) == 0x100000;
    assert 256 * RECORD_SIZE + PAGE_SIZE - 1 == 7167;
  }

  /** One step of the scenario: the block at cur of order k, then the rest from next. */
  lemma {:induction false} TileAt(cur: nat, k: nat, next: nat)
    requires cur < 256 && LargestFit(256 - cur) == k && cur + Pow2(k) == next
    ensures Tiles(cur, 256) == [(cur, k)] + Tiles(next, 256)
  {
  }

  lemma {:induction false} FitScenario()
    ensures LargestFit(255) == 7 && LargestFit(127) == 6 && LargestFit(63) == 5 && LargestFit(31) == 4
    ensures LargestFit(15) == 3 && LargestFit(7) == 2 && LargestFit(3) == 1 && LargestFit(1) == 0
    ensures Pow2(7) == 128 && Pow2(6) == 64 && Pow2(5) == 32 && Pow2(4) == 16
    ensures Pow2(3) == 8 && Pow2(2) == 4 && Pow2(1) == 2 && Pow2(0) == 1
  {
    assert Pow2(8) == 256;
  }

  /** A free block's other pages are not free: is_available reports false inside it. */
  lemma {:induction false} InsideFreeBlock(s: Store, alloc: seq<bool>, reserved: nat, h: nat, k: nat, q: nat)
    requires Sound(s, alloc, reserved) && k < NUM_ORDERS && h in s.lists[k] && h < q < h + Pow2(k)
    ensures q < |s.blocks| && !s.blocks[q].isFree
  {
    ListedPlaced(s, alloc, reserved, h, k);
    assert PlacedAt(s, alloc, reserved, h);
    assert !Head(s, alloc, q);
  }

  /** A record is free exactly when its page heads a block on some free list. */
  lemma {:induction false} FreeIffListed(s: Store, i: nat)
    requires WellFormed(s) && i < |s.blocks|
    ensures s.blocks[i].isFree <==> exists k :: 0 <= k < NUM_ORDERS && i in s.lists[k]
  {
    if s.blocks[i].isFree {
      assert i in s.lists[s.blocks[i].order];
    }
  }

  /**
   * The pages buddy_alloc_aligned asks for: size rounded up to whole pages
   * (in 32-bit arithmetic), then up to a power of two; one page for size 0.
   */
  function AlignedCount(size: U32): (r: nat)
    ensures r >= 1 && r * PAGE_SIZE >= ToU32(size + PAGE_SIZE - 1) / PAGE_SIZE * PAGE_SIZE
    ensures r == Pow2(OrderFor(r)) && OrderFor(r) == OrderFor(ToU32(size + PAGE_SIZE - 1) / PAGE_SIZE)
    ensures size == 0 ==> r == 1
    ensures r <= MAX_BLOCK_PAGES
  {
    var pages := ToU32(size + PAGE_SIZE - 1) / PAGE_SIZE;
    Pow2Top();
    var k := OrderFor(pages);
    Pow2Monotone(k, MAX_ORDER);
    OrderOfPow2(k);
    Pow2(k)
  }

  /** A power of two up to 2^20 is its own order's block size. */
  lemma {:induction false} OrderOfPow2(k: nat)
    requires k <= MAX_ORDER
    ensures OrderFor(Pow2(k)) == k
  {
    forall j | 0 <= j < k
      ensures Pow2(j) < Pow2(k)
    {
      Pow2Strict(j, k);
    }
    OrderLeast(Pow2(k), k);
  }

  /** The least order up to 20 whose block holds n pages is get_order_for_pages(n). */
  lemma {:induction false} OrderLeast(n: nat, k: nat)
    requires k <= MAX_ORDER && Pow2(k) >= n && forall j :: 0 <= j < k ==> Pow2(j) < n
    ensures OrderFor(n) == k
  {
    var r := OrderFor(n);
    Pow2Monotone(k, MAX_ORDER);
    Pow2Top();
  }

  // ---------------------------------------------------------------------------
  // The allocator state
  // ---------------------------------------------------------------------------

  class Buddy {
    var memoryStart: U32
    var totalPages: nat
    var blocks: array<Block>
    var lists: seq<seq<nat>>
    var allocatedPages: U32
    var allocationCount: U32
    /** The pages before the first block, which the metadata would occupy. */
    var reservedPages: nat
    /** Which pages head a block that alloc_pages handed out and free_pages has not taken back. */
    ghost var owned: seq<bool>

    /** The metadata array and the free lists. */
    function State(): (s: Store)
      reads this, blocks
      ensures |s.blocks| == blocks.Length && s.lists == lists
    {
      Store(blocks[..], lists)
    }

    /**
     * One record per page, 21 lists holding pages of the range, and the range
     * inside the 32-bit address space.
     */
    ghost predicate Valid()
      reads this, blocks
    {
      blocks.Length == totalPages && |owned| == totalPages && Shaped(State()) && InRange(State())
      && memoryStart + totalPages * PAGE_SIZE <= U32_BOUND && reservedPages <= totalPages
    }

    /** Every page is accounted for: handed out, on a free list, or reserved for the metadata. */
    ghost predicate Conserved()
      reads this
    {
      allocatedPages + ListsSize(lists) + reservedPages == totalPages
    }

    /** free_pages of paddr gives back a block alloc_pages handed out, or does nothing. */
    ghost predicate Returns(paddr: U32)
      reads this, blocks
      requires Valid()
    {
      match PageOf(memoryStart, totalPages, paddr)
      case None => true
      case Some(p) => blocks[p].isFree || owned[p]
    }

    /** The page whose block free_pages of paddr gives back: a page of the range whose record is not free. */
    ghost function Released(paddr: U32): (r: Option<nat>)
      reads this, blocks
      requires Valid()
      ensures r.Some? ==> r.value < totalPages && !blocks[r.value].isFree
    {
      match PageOf(memoryStart, totalPages, paddr)
      case None => None
      case Some(p) => if blocks[p].isFree then None else Some(p)
    }

    /** The pages free_pages of paddr subtracts from the allocated count. */
    ghost function ReleasedPages(paddr: U32): (r: nat)
      reads this, blocks
      requires Valid()
      ensures Released(paddr).None? ==> r == 0
      ensures r <= MAX_BLOCK_PAGES
    {
      match Released(paddr)
      case None => 0
      case Some(p) => Pow2Monotone(blocks[p].order, MAX_ORDER); Pow2Top(); Pow2(blocks[p].order)
    }

    /** The zero-initialized static state, before init: no pages at all. */
    constructor ()
      ensures Valid() && totalPages == 0 && allocatedPages == 0 && allocationCount == 0
    {
      memoryStart := 0;
      totalPages := 0;
      blocks := new Block[0];
      lists := seq(NUM_ORDERS, _ => []);
      allocatedPages := 0;
      allocationCount := 0;
      reservedPages := 0;
      owned := [];
    }

    /** add_to_free_list: the record becomes free with order k and heads list k. */
    method AddToFreeList(b: nat, k: nat)
      requires Valid() && b < totalPages && k <= MAX_ORDER
      modifies this`lists, blocks
      ensures Valid() && State() == AddFree(old(State()), b, k)
    {
      blocks[b] := Block(true, k);
      lists := lists[k := [b] + lists[k]];
    }

    /** remove_from_free_list: the page leaves list k and its record is no longer free. */
    method RemoveFromFreeList(b: nat, k: nat)
      requires Valid() && b < totalPages && k <= MAX_ORDER
      modifies this`lists, blocks
      ensures Valid() && State() == RemoveFree(old(State()), b, k)
    {
      RemoveMembers(lists[k], b);
      lists := lists[k := Remove(lists[k], b)];
      blocks[b] := blocks[b].(isFree := false);
    }

    /** The record of b takes order k; nothing else changes. */
    method SetBlockOrder(b: nat, k: nat)
      requires Valid() && b < totalPages && k <= MAX_ORDER
      modifies blocks
      ensures Valid() && State() == SetOrder(old(State()), b, k)
    {
      blocks[b] := blocks[b].(order := k);
    }

    /**
     * The body of merge_block's loop: the buddy leaves list k and the lower
     * of the two records takes order k + 1 and heads the merged block.
     */
    method JoinBuddy(b: nat, k: nat) returns (head: nat)
      requires Valid() && b < totalPages && k < MAX_ORDER && BuddyOf(b, k) < totalPages
      modifies this`lists, blocks
      ensures Valid() && State() == MergeOnce(old(State()), b, k) && head == Joined(b, k)
    {
      var buddy := BuddyOf(b, k);
      RemoveFromFreeList(buddy, k);
      head := b;
      if buddy < head {
        head := buddy;
      }
      SetBlockOrder(head, k + 1);
    }

    /** get_buddy: the page with bit k of b flipped, when it is a page of the range. */
    function GetBuddy(b: nat, k: nat): (r: Option<nat>)
      reads this
      ensures r.Some? <==> BuddyOf(b, k) < totalPages
      ensures r.Some? ==> r.value == BuddyOf(b, k) && r.value != b
    {
      if BuddyOf(b, k) >= totalPages then None else Some(BuddyOf(b, k))
    }

    /** split_block: from the record's order down to target, each upper half goes on its list. */
    method SplitBlock(b: nat, target: nat)
      requires Valid() && b < totalPages
      modifies this`lists, blocks
      ensures Valid() && State() == Split(old(State()), b, old(blocks[b].order), target)
    {
      var cur: nat := blocks[b].order;
      while cur > target
        invariant Valid() && cur <= MAX_ORDER
        invariant Split(State(), b, cur, target) == Split(old(State()), b, old(blocks[b].order), target)
        decreases cur
      {
        cur := cur - 1;
        ghost var pre := State();
        HalveBlock(b, cur);
        SplitAdvance(pre, State(), b, cur, target, Split(old(State()), b, old(blocks[b].order), target));
      }
    }

    /** The body of split_block's loop: the buddy at order c, when a page of the range, goes free on list c, and b takes order c. */
    method HalveBlock(b: nat, c: nat)
      requires Valid() && b < totalPages && c <= MAX_ORDER
      modifies this`lists, blocks
      ensures Valid() && State() == SplitRound(old(State()), b, c)
    {
      var buddy := GetBuddy(b, c);
      if buddy.Some? {
        AddToFreeList(buddy.value, c);
      }
      SetBlockOrder(b, c);
    }

    /** merge_block: joins free buddies of equal order upwards and gives the merged block's head. */
    method MergeBlock(b: nat) returns (nb: nat)
      requires Valid() && b < totalPages
      modifies this`lists, blocks
      ensures Valid() && (State(), nb) == Merge(old(State()), b, old(blocks[b].order))
    {
      nb := b;
      var order := blocks[b].order;
      while order < MAX_ORDER
        invariant Valid() && nb < totalPages && order <= MAX_ORDER
        invariant Merge(State(), nb, order) == Merge(old(State()), b, old(blocks[b].order))
        decreases MAX_ORDER - order
      {
        var buddy := GetBuddy(nb, order);
        if buddy.None? || !blocks[buddy.value].isFree || blocks[buddy.value].order != order {
          break;
        }
        ghost var pre, nb0, order0 := State(), nb, order;
        nb := JoinBuddy(nb, order);
        order := order + 1;
        MergeAdvance(pre, State(), nb0, nb, order0, order, Merge(old(State()), b, old(blocks[b].order)));
      }
    }

    /** get_order_for_pages: doubles a block size from one page until it holds the request. */
    static method GetOrderForPages(pages: nat) returns (order: nat)
      ensures order == OrderFor(pages)
    {
      order := 0;
      var blockPages := 1;
      while blockPages < pages && order <= MAX_ORDER
        invariant order <= MAX_ORDER + 1 && blockPages == Pow2(order)
        invariant forall j :: 0 <= j < order ==> Pow2(j) < pages
        decreases MAX_ORDER + 1 - order
      {
        order := order + 1;
        blockPages := blockPages * 2;
      }
      Pow2Top();
      if order > MAX_ORDER {
        order := ORDER_FAILURE;
      } else {
        Pow2Monotone(order, MAX_ORDER);
        OrderLeast(pages, order);
      }
    }

    /**
     * buddy_init: manages the whole pages of [start, end); every record is
     * cleared, every list emptied, and the pages after the metadata are laid
     * out as free blocks back to back.
     */
    method Init(start: U32, end: U32) returns (rc: int)
      requires start <= end
      modifies this
      ensures rc == 0 && Valid() && fresh(blocks)
      ensures memoryStart == start && totalPages == (end - start) / PAGE_SIZE
      ensures allocatedPages == 0 && allocationCount == 0 && reservedPages == MetadataPages(totalPages)
      ensures owned == seq(totalPages, _ => false)
      ensures State() == InitStore(totalPages) && Conserved()
    {
      Reset(start, end);
      LayBlocks();
      InitSize(totalPages);
      rc := 0;
    }

    /** The first part of buddy_init: the fields set, every record cleared and every list emptied. */
    method Reset(start: U32, end: U32)
      requires start <= end
      modifies this
      ensures Valid() && fresh(blocks)
      ensures memoryStart == start && totalPages == (end - start) / PAGE_SIZE
      ensures allocatedPages == 0 && allocationCount == 0 && reservedPages == MetadataPages(totalPages)
      ensures owned == seq(totalPages, _ => false)
      ensures State() == Blank(totalPages)
    {
      memoryStart := start;
      var total := (end - start) / PAGE_SIZE;
      totalPages := total;
      allocatedPages := 0;
      allocationCount := 0;
      lists := EmptyLists();
      blocks := ClearedRecords(total);
      reservedPages := MetadataPages(total);
      owned := seq(total, _ => false);
      assert State() == Blank(total);
    }

    /** The last loop of buddy_init: each block the largest that fits, starting where the last one ends. */
    method LayBlocks()
      requires Valid()
      modifies this`lists, blocks
      ensures Valid() && State() == LaidFrom(old(State()), reservedPages, totalPages)
    {
      var total := totalPages;
      var current := reservedPages;
      while current < total
        invariant Valid() && total == totalPages
        invariant LaidFrom(State(), current, total) == LaidFrom(old(State()), reservedPages, total)
        decreases total - current
      {
        var maxOrder := LargestOrder(total - current);
        ghost var pre, cur0 := State(), current;
        AddToFreeList(current, maxOrder);
        current := current + Pow2(maxOrder);
        LaidFromStep(pre, State(), cur0, current, total, maxOrder, LaidFrom(old(State()), reservedPages, total));
      }
      assert LaidFrom(State(), current, total) == State();
    }

    /**
     * buddy_alloc_pages: the first non-empty free list from the order of count
     * up is popped, the block is split down to that order and handed out, and
     * the counters grow (in 32-bit arithmetic); 0 when count is 0, more than
     * 2^20 pages, or no list from its order up holds a block.
     */
    method AllocPages(count: U32) returns (addr: U32)
      requires Valid()
      modifies this`lists, this`allocatedPages, this`allocationCount, this`owned, blocks
      ensures Valid() && State() == Alloc(old(State()), count).0
      ensures Alloc(old(State()), count).1.None? ==>
        addr == 0 && allocatedPages == old(allocatedPages) && allocationCount == old(allocationCount) && owned == old(owned)
      ensures Alloc(old(State()), count).1.Some? ==>
        addr == memoryStart + Alloc(old(State()), count).1.value * PAGE_SIZE
        && allocatedPages == AddU32(old(allocatedPages), Pow2(OrderFor(count)))
        && allocationCount == AddU32(old(allocationCount), 1)
        && owned == old(owned)[Alloc(old(State()), count).1.value := true]
      ensures old(Sound(State(), owned, reservedPages)) ==> Sound(State(), owned, reservedPages)
      ensures old(Sound(State(), owned, reservedPages) && Conserved()) ==> Conserved()
    {
      if count == 0 {
        return 0;
      }
      var order := GetOrderForPages(count);
      if order == ORDER_FAILURE {
        return 0;
      }
      var found := FindList(order);
      if found.None? {
        return 0;
      }
      var so := found.value;
      var b := lists[so][0];
      assert b in lists[so];
      ghost var s0, a0 := State(), owned;
      AllocTakes(s0, count, so);
      addr := TakeBlock(b, so, order);
      if Sound(s0, a0, reservedPages) {
        AllocKeeps(s0, a0, reservedPages, count, b);
        if old(Conserved()) {
          assert old(allocatedPages) + Pow2(order) <= totalPages < U32_BOUND;
        }
      }
    }

    /**
     * The rest of buddy_alloc_pages on the head b of list so: unlinked,
     * carved down to order and marked allocated, the counters grown in
     * 32-bit arithmetic, and its address given.
     */
    method TakeBlock(b: nat, so: nat, order: nat) returns (addr: U32)
      requires Valid() && b < totalPages && so <= MAX_ORDER && order <= MAX_ORDER && Pow2(order) <= MAX_BLOCK_PAGES
      modifies this`lists, this`allocatedPages, this`allocationCount, this`owned, blocks
      ensures Valid() && State() == Carve(RemoveFree(old(State()), b, so), b, order)
      ensures addr == memoryStart + b * PAGE_SIZE
      ensures allocatedPages == AddU32(old(allocatedPages), Pow2(order)) && allocationCount == AddU32(old(allocationCount), 1)
      ensures owned == old(owned)[b := true]
    {
      RemoveFromFreeList(b, so);
      CarveBlock(b, order);
      allocatedPages := AddU32(allocatedPages, Pow2(order));
      allocationCount := AddU32(allocationCount, 1);
      owned := owned[b := true];
      addr := AddU32(memoryStart, b * PAGE_SIZE);
    }

    /** The search loop of buddy_alloc_pages: the first order from order up whose list is not empty. */
    method FindList(order: nat) returns (found: Option<nat>)
      requires |lists| == NUM_ORDERS && order <= MAX_ORDER
      ensures found == FirstNonEmpty(lists, order)
    {
      var searchOrder := order;
      while searchOrder <= MAX_ORDER
        invariant order <= searchOrder <= MAX_ORDER + 1
        invariant FirstNonEmpty(lists, order) == FirstNonEmpty(lists, searchOrder)
        decreases MAX_ORDER + 1 - searchOrder
      {
        if lists[searchOrder] != [] {
          return Some(searchOrder);
        }
        searchOrder := searchOrder + 1;
      }
      return None;
    }

    /** The end of buddy_alloc_pages: split b down to order when larger, then mark its record allocated. */
    method CarveBlock(b: nat, order: nat)
      requires Valid() && b < totalPages
      modifies this`lists, blocks
      ensures Valid() && State() == Carve(old(State()), b, order)
    {
      if blocks[b].order > order {
        SplitBlock(b, order);
      }
      blocks[b] := blocks[b].(isFree := false);
    }

    /** buddy_alloc_page: one page. */
    method AllocPage() returns (addr: U32)
      requires Valid()
      modifies this`lists, this`allocatedPages, this`allocationCount, this`owned, blocks
      ensures Valid() && State() == Alloc(old(State()), 1).0
      ensures Alloc(old(State()), 1).1.None? ==>
        addr == 0 && allocatedPages == old(allocatedPages) && allocationCount == old(allocationCount) && owned == old(owned)
      ensures Alloc(old(State()), 1).1.Some? ==>
        addr == memoryStart + Alloc(old(State()), 1).1.value * PAGE_SIZE
        && allocatedPages == AddU32(old(allocatedPages), 1)
        && allocationCount == AddU32(old(allocationCount), 1)
        && owned == old(owned)[Alloc(old(State()), 1).1.value := true]
      ensures old(Sound(State(), owned, reservedPages)) ==> Sound(State(), owned, reservedPages)
      ensures old(Sound(State(), owned, reservedPages) && Conserved()) ==> Conserved()
    {
      addr := AllocPages(1);
    }

    /**
     * buddy_free_pages: nothing for an address outside the range or a page
     * whose record is free; otherwise the counters shrink by the record's
     * block (in 32-bit arithmetic), the block merges with its free buddies and
     * the result goes on the list of its final order. count is not used.
     */
    method FreePages(paddr: U32, count: U32)
      requires Valid()
      modifies this`lists, this`allocatedPages, this`allocationCount, this`owned, blocks
      ensures Valid() && State() == Free(old(State()), memoryStart, paddr)
      ensures old(Released(paddr)).None? ==>
        allocatedPages == old(allocatedPages) && allocationCount == old(allocationCount) && owned == old(owned)
      ensures old(Released(paddr)).Some? ==>
        allocatedPages == SubU32(old(allocatedPages), old(ReleasedPages(paddr)))
        && allocationCount == SubU32(old(allocationCount), 1)
        && owned == old(owned)[old(Released(paddr)).value := false]
      ensures old(Sound(State(), owned, reservedPages) && Returns(paddr)) ==> Sound(State(), owned, reservedPages)
      ensures old(Sound(State(), owned, reservedPages) && Returns(paddr) && Conserved() && ReleasedPages(paddr) <= allocatedPages) ==> Conserved()
    {
      if paddr < memoryStart {
        return;
      }
      var pageIndex := (paddr - memoryStart) / PAGE_SIZE;
      if pageIndex >= totalPages {
        return;
      }
      if blocks[pageIndex].isFree {
        return;
      }
      ghost var s0, a0 := State(), owned;
      FreeRelinks(s0, memoryStart, paddr, pageIndex);
      ReleaseBlock(pageIndex);
      if Sound(s0, a0, reservedPages) && a0[pageIndex] {
        FreeKeeps(s0, a0, reservedPages, memoryStart, paddr, pageIndex);
      }
    }

    /**
     * The rest of buddy_free_pages on the page p of a handed-out block: the
     * counters shrink in 32-bit arithmetic, then the block merges with its
     * buddies and goes on the list of its final order.
     */
    method ReleaseBlock(p: nat)
      requires Valid() && p < totalPages
      modifies this`lists, this`allocatedPages, this`allocationCount, this`owned, blocks
      ensures Valid() && State() == Relink(old(State()), p)
      ensures allocatedPages == SubU32(old(allocatedPages), old(ReleasedPagesAt(p))) && allocationCount == SubU32(old(allocationCount), 1)
      ensures owned == old(owned)[p := false]
    {
      allocatedPages := SubU32(allocatedPages, ReleasedPagesAt(p));
      allocationCount := SubU32(allocationCount, 1);
      owned := owned[p := false];
      var nb := MergeBlock(p);
      AddToFreeList(nb, blocks[nb].order);
    }

    /** BLOCK_SIZE of the record of p. */
    function ReleasedPagesAt(p: nat): (r: U32)
      reads this, blocks
      requires Valid() && p < totalPages
      ensures r == Pow2(blocks[p].order)
    {
      Pow2Monotone(blocks[p].order, MAX_ORDER);
      Pow2Top();
      Pow2(blocks[p].order)
    }

    /** buddy_free_page: free_pages of one page. */
    method FreePage(paddr: U32)
      requires Valid()
      modifies this`lists, this`allocatedPages, this`allocationCount, this`owned, blocks
      ensures Valid() && State() == Free(old(State()), memoryStart, paddr)
      ensures old(Released(paddr)).None? ==>
        allocatedPages == old(allocatedPages) && allocationCount == old(allocationCount) && owned == old(owned)
      ensures old(Released(paddr)).Some? ==>
        allocatedPages == SubU32(old(allocatedPages), old(ReleasedPages(paddr)))
        && allocationCount == SubU32(old(allocationCount), 1)
        && owned == old(owned)[old(Released(paddr)).value := false]
      ensures old(Sound(State(), owned, reservedPages) && Returns(paddr)) ==> Sound(State(), owned, reservedPages)
      ensures old(Sound(State(), owned, reservedPages) && Returns(paddr) && Conserved() && ReleasedPages(paddr) <= allocatedPages) ==> Conserved()
    {
      FreePages(paddr, 1);
    }

    /** buddy_get_free_pages: every page not counted as allocated, the metadata pages included. */
    method GetFreePages() returns (n: U32)
      requires Valid()
      ensures n == SubU32(totalPages, allocatedPages)
      ensures Conserved() ==> n == ListsSize(lists) + reservedPages
    {
      n := SubU32(totalPages, allocatedPages);
    }

    /** buddy_get_total_pages: the whole pages of the range given to init. */
    method GetTotalPages() returns (n: nat)
      ensures n == totalPages
    {
      n := totalPages;
    }

    /**
     * buddy_alloc_aligned: size rounded up to pages and to a power of two, so
     * that the block, aligned to its own size, is aligned to that size; the
     * alignment argument is not used.
     */
    method AllocAligned(size: U32, alignment: U32) returns (addr: U32)
      requires Valid()
      modifies this`lists, this`allocatedPages, this`allocationCount, this`owned, blocks
      ensures Valid() && State() == Alloc(old(State()), AlignedCount(size)).0
      ensures Alloc(old(State()), AlignedCount(size)).1.None? ==>
        addr == 0 && allocatedPages == old(allocatedPages) && allocationCount == old(allocationCount) && owned == old(owned)
      ensures Alloc(old(State()), AlignedCount(size)).1.Some? ==>
        addr == memoryStart + Alloc(old(State()), AlignedCount(size)).1.value * PAGE_SIZE
        && allocatedPages == AddU32(old(allocatedPages), AlignedCount(size))
        && allocationCount == AddU32(old(allocationCount), 1)
        && owned == old(owned)[Alloc(old(State()), AlignedCount(size)).1.value := true]
      ensures old(Sound(State(), owned, reservedPages)) && Alloc(old(State()), AlignedCount(size)).1.Some? ==>
        Alloc(old(State()), AlignedCount(size)).1.value % AlignedCount(size) == 0
      ensures old(Sound(State(), owned, reservedPages)) ==> Sound(State(), owned, reservedPages)
      ensures old(Sound(State(), owned, reservedPages) && Conserved()) ==> Conserved()
    {
      var pagesNeeded := ToU32(size + PAGE_SIZE - 1) / PAGE_SIZE;
      // at most 2^20 pages, so the source's test for order 0xFF never succeeds
      var order := GetOrderForPages(pagesNeeded);
      ghost var s0, a0 := State(), owned;
      assert Pow2(order) == AlignedCount(size);
      addr := AllocPages(Pow2(order));
      var r := Alloc(s0, AlignedCount(size)).1;
      if Sound(s0, a0, reservedPages) && r.Some? {
        AllocPlaced(s0, a0, reservedPages, AlignedCount(size), r.value);
        AlignedIsMultiple(r.value, order);
      }
    }

    /** buddy_is_available: the address is in the range and its page's record is free, that is, heads a free block. */
    function IsAvailable(paddr: U32): (r: bool)
      reads this, blocks
      requires blocks.Length == totalPages
      ensures r ==> PageOf(memoryStart, totalPages, paddr).Some?
      ensures WellFormed(State()) ==>
        (r <==> PageOf(memoryStart, totalPages, paddr).Some? && exists k :: 0 <= k < NUM_ORDERS && PageOf(memoryStart, totalPages, paddr).value in lists[k])
    {
      if paddr < memoryStart then false
      else if (paddr - memoryStart) / PAGE_SIZE >= totalPages then false
      else
        var p := (paddr - memoryStart) / PAGE_SIZE;
        if WellFormed(State()) then FreeIffListed(State(), p); blocks[p].isFree else blocks[p].isFree
    }

    /** The first loop of buddy_init: every free list starts empty. */
    static method EmptyLists() returns (heads: seq<seq<nat>>)
      ensures heads == Blank(0).lists
    {
      heads := [];
      var i := 0;
      while i <= MAX_ORDER
        invariant 0 <= i <= NUM_ORDERS && |heads| == i && forall j :: 0 <= j < i ==> heads[j] == []
      {
        heads := heads + [[]];
        i := i + 1;
      }
    }

    /** The metadata loop of buddy_init: total records, none free and all of order 0. */
    static method ClearedRecords(total: nat) returns (records: array<Block>)
      ensures fresh(records) && records[..] == Blank(total).blocks
    {
      records := new Block[total];
      var i := 0;
      while i < total
        invariant 0 <= i <= total && forall j :: 0 <= j < i ==> records[j] == Block(false, 0)
      {
        records[i] := Block(false, 0);
        i := i + 1;
      }
    }

    /** The inner loop of buddy_init: the order of the largest block that fits in the remaining pages. */
    static method LargestOrder(remaining: nat) returns (maxOrder: nat)
      ensures maxOrder == LargestFit(remaining)
    {
      maxOrder := 0;
      while Pow2(maxOrder + 1) <= remaining && maxOrder < MAX_ORDER
        invariant maxOrder <= MAX_ORDER && FitFrom(remaining, maxOrder, Pow2(maxOrder + 1)) == LargestFit(remaining)
        decreases MAX_ORDER - maxOrder
      {
        FitStep(remaining, maxOrder);
        maxOrder := maxOrder + 1;
      }
    }
  }

  /** One round of buddy_init's last loop: lay the first block, then the rest. */
  lemma {:induction false} LaidFromStep(s: Store, s': Store, cur: nat, next: nat, total: nat, k: nat, goal: Store)
    requires Shaped(s) && cur < total <= |s.blocks| && k == LargestFit(total - cur) && next == cur + Pow2(k)
    requires s' == AddFree(s, cur, k) && LaidFrom(s, cur, total) == goal
    ensures next <= total && Shaped(s') && |s'.blocks| == |s.blocks|
    ensures LaidFrom(s', next, total) == goal
  {
    TilesBounds(cur, total);
    LayUnfold(s, cur, total, k);
  }

  /** alloc_pages hands out a block naturally aligned to its order, after the metadata and inside the range. */
  lemma {:induction false} AllocPlaced(s: Store, alloc: seq<bool>, reserved: nat, count: nat, b: nat)
    requires Sound(s, alloc, reserved) && Alloc(s, count).1 == Some(b)
    ensures reserved <= b && Aligned(b, OrderFor(count)) && b + Pow2(OrderFor(count)) <= |s.blocks|
  {
    AllocKeeps(s, alloc, reserved, count, b);
    var s' := Alloc(s, count).0;
    var a' := alloc[b := true];
    assert Head(s', a', b);
  }

  /** alloc_pages takes the head of the first non-empty list from the order of count up. */
  lemma {:induction false} AllocTakes(s: Store, count: nat, so: nat)
    requires Shaped(s) && InRange(s) && count != 0 && OrderFor(count) != ORDER_FAILURE
    requires FirstNonEmpty(s.lists, OrderFor(count)) == Some(so)
    ensures s.lists[so] != [] && s.lists[so][0] < |s.blocks|
    ensures Alloc(s, count) == (Carve(RemoveFree(s, s.lists[so][0], so), s.lists[so][0], OrderFor(count)), Some(s.lists[so][0]))
  {
    assert s.lists[so][0] in s.lists[so];
  }

  /** One round of split_block: the buddy at order c is pushed free when it is a page of the range, and b takes order c. */
  function SplitRound(s: Store, b: nat, c: nat): (r: Store)
    requires Shaped(s) && b < |s.blocks| && c <= MAX_ORDER
    ensures Shaped(r) && |r.blocks| == |s.blocks| && (InRange(s) ==> InRange(r))
  {
    var bi := BuddyOf(b, c);
    SetOrder(if bi < |s.blocks| then AddFree(s, bi, c) else s, b, c)
  }

  /** After one round of split_block, splitting goes on from the order below. */
  lemma {:induction false} SplitAdvance(s: Store, s': Store, b: nat, c: nat, target: nat, goal: Store)
    requires Shaped(s) && b < |s.blocks| && target <= c < MAX_ORDER && Split(s, b, c + 1, target) == goal
    requires s' == SplitRound(s, b, c)
    ensures Shaped(s') && b < |s'.blocks| && Split(s', b, c, target) == goal
  {
  }

  /** The end of buddy_free_pages on the metadata: merge from p, then push the merged block on its list. */
  function Relink(s: Store, p: nat): (r: Store)
    requires Shaped(s) && p < |s.blocks|
    ensures Shaped(r) && |r.blocks| == |s.blocks| && (InRange(s) ==> InRange(r))
  {
    var (s1, nb) := Merge(s, p, s.blocks[p].order);
    AddFree(s1, nb, s1.blocks[nb].order)
  }

  /** free_pages of an address of the range whose record is not free relinks its page. */
  lemma {:induction false} FreeRelinks(s: Store, start: nat, paddr: nat, p: nat)
    requires Shaped(s) && PageOf(start, |s.blocks|, paddr) == Some(p) && !s.blocks[p].isFree
    ensures Free(s, start, paddr) == Relink(s, p)
  {
  }

  /** One round of merge_block's loop: a joinable block merges with its buddy and the merge goes on from there. */
  lemma {:induction false} MergeAdvance(s: Store, s': Store, b: nat, b': nat, k: nat, k': nat, goal: (Store, nat))
    requires Shaped(s) && b < |s.blocks| && k < MAX_ORDER && Joinable(s, b, k) && Merge(s, b, k) == goal
    requires s' == MergeOnce(s, b, k) && b' == Joined(b, k) && k' == k + 1
    ensures b' < |s'.blocks| && Merge(s', b', k') == goal
  {
  }

  /** One round of buddy_init's inner loop: the next size is twice the current one. */
  lemma {:induction false} FitStep(remaining: nat, k: nat)
    requires k < MAX_ORDER && Pow2(k + 1) <= remaining
    ensures FitFrom(remaining, k, Pow2(k + 1)) == FitFrom(remaining, k + 1, Pow2(k + 2))
  {
    Pow2Double(k + 1);
  }
}
