/**
 * The bitmap physical page allocator (kernel/memory/bitmap_allocator.c): one
 * bit per page in 32-bit words (a set bit is a used page), a count of free
 * pages, a next-fit cursor for single pages and first-fit scans for runs.
 *
 * The bitmap is a separate array here; the pages it would occupy at the start
 * of the managed range are still reserved.
 */
module BitmapAllocator {
  import opened Wrappers

  const PAGE_SIZE: nat := 4096
  const PAGES_PER_WORD: nat := 32
  const NOT_FOUND: nat := 0xFFFF_FFFF

  // ---------------------------------------------------------------------------
  // Bits of the bitmap words
  // ---------------------------------------------------------------------------

  function Mask(b: bv5): bv32
  {
    1 << b
  }

  function BitOf(page: nat): bv5
  {
    (page % PAGES_PER_WORD) as bv5
  }

  /** The bit of page b is clear in word x. */
  predicate BitClear(x: bv32, b: bv5)
  {
    x & Mask(b) == 0
  }

  lemma MaskNonZero(b: bv5)
    ensures Mask(b) != 0
  {
  }

  lemma SetBitEffect(x: bv32, b: bv5, c: bv5, same: bool)
    requires same <==> b == c
    ensures (x | Mask(b)) & Mask(c) == 0 <==> !same && x & Mask(c) == 0
  {
    if c == b {
      MaskNonZero(b);
    } else {
      assert Mask(b) & Mask(c) == 0;
    }
  }

  lemma ClearBitEffect(x: bv32, b: bv5, c: bv5, same: bool)
    requires same <==> b == c
    ensures (x & !Mask(b)) & Mask(c) == 0 <==> same || x & Mask(c) == 0
  {
  }

  /** Setting bit b of a word makes bit c used when c is b and leaves it alone otherwise. */
  lemma WordSet(x: bv32, b: bv5, c: bv5)
    ensures BitClear(x | Mask(b), c) <==> b != c && BitClear(x, c)
  {
    SetBitEffect(x, b, c, b == c);
  }

  /** Clearing bit b of a word makes bit c free when c is b and leaves it alone otherwise. */
  lemma WordClear(x: bv32, b: bv5, c: bv5)
    ensures BitClear(x & !Mask(b), c) <==> b == c || BitClear(x, c)
  {
    ClearBitEffect(x, b, c, b == c);
  }

  /** Whether the words mark a page free: its bit is clear (pages past the words are not free). */
  predicate PageFreeIn(words: seq<bv32>, page: nat)
  {
    page / PAGES_PER_WORD < |words| && BitClear(words[page / PAGES_PER_WORD], BitOf(page))
  }

  /** The free/used status of pages 0..n-1. */
  function PageBits(words: seq<bv32>, n: nat): (bits: seq<bool>)
    ensures |bits| == n
    ensures forall q :: 0 <= q < n ==> bits[q] == PageFreeIn(words, q)
  {
    seq(n, (q: int) requires 0 <= q => PageFreeIn(words, q))
  }

  /** The number of words, and of pages holding them, for a bitmap of n pages. */
  function WordsFor(n: nat): nat
  {
    (n + PAGES_PER_WORD - 1) / PAGES_PER_WORD
  }

  function MetadataPages(n: nat): (m: nat)
    ensures m <= n
  {
    (WordsFor(n) * 4 + PAGE_SIZE - 1) / PAGE_SIZE
  }

  // ---------------------------------------------------------------------------
  // Counting and searching free pages
  // ---------------------------------------------------------------------------

  function CountFree(bits: seq<bool>): (c: nat)
    ensures c <= |bits|
  {
    if bits == [] then 0 else CountFree(bits[..|bits| - 1]) + (if bits[|bits| - 1] then 1 else 0)
  }

  lemma {:induction false} CountUpdate(bits: seq<bool>, p: nat, v: bool)
    requires p < |bits|
    ensures CountFree(bits[p := v]) == CountFree(bits) - (if bits[p] then 1 else 0) + (if v then 1 else 0)
    decreases |bits|
  {
    var n := |bits|;
    var u := bits[p := v];
    if p < n - 1 {
      assert u[..n - 1] == bits[..n - 1][p := v];
      CountUpdate(bits[..n - 1], p, v);
    } else {
      assert u[..n - 1] == bits[..n - 1];
    }
  }

  lemma {:induction false} CountNoneFree(bits: seq<bool>)
    requires forall q :: 0 <= q < |bits| ==> !bits[q]
    ensures CountFree(bits) == 0
    decreases |bits|
  {
    if bits != [] {
      CountNoneFree(bits[..|bits| - 1]);
    }
  }

  lemma {:induction false} CountAllFree(bits: seq<bool>, m: nat)
    requires m <= |bits|
    requires forall q :: 0 <= q < |bits| ==> bits[q] == (q >= m)
    ensures CountFree(bits) == |bits| - m
    decreases |bits|
  {
    if |bits| > m {
      CountAllFree(bits[..|bits| - 1], m);
    } else {
      CountNoneFree(bits);
    }
  }

  /** The lowest free page in [lo, hi). */
  function FirstFree(bits: seq<bool>, lo: nat, hi: nat): (r: Option<nat>)
    requires lo <= hi <= |bits|
    ensures r.Some? ==> lo <= r.value < hi && bits[r.value] && forall q :: lo <= q < r.value ==> !bits[q]
    ensures r.None? ==> forall q :: lo <= q < hi ==> !bits[q]
    decreases hi - lo
  {
    if lo == hi then None else if bits[lo] then Some(lo) else FirstFree(bits, lo + 1, hi)
  }

  /** find_free_page: the first free page at or after `start`, wrapping once to page 0. */
  function NextFit(bits: seq<bool>, start: nat): (r: Option<nat>)
    requires start <= |bits|
    ensures r.Some? ==> r.value < |bits| && bits[r.value]
    ensures r.Some? && r.value >= start ==> forall q :: start <= q < r.value ==> !bits[q]
    ensures r.Some? && r.value < start ==> forall q :: 0 <= q < r.value || start <= q < |bits| ==> !bits[q]
    ensures r.None? <==> forall q :: 0 <= q < |bits| ==> !bits[q]
  {
    match FirstFree(bits, start, |bits|)
    case Some(p) => Some(p)
    case None => FirstFree(bits, 0, start)
  }

  /** Pages [s, s + n) all exist and are free. */
  predicate RunFree(bits: seq<bool>, s: nat, n: nat)
  {
    forall i :: s <= i < s + n ==> i < |bits| && bits[i]
  }

  /**
   * The least k at or after `from` such that the n pages starting at k * step
   * fit and are all free: the scan of alloc_pages (step 1) and alloc_aligned.
   */
  function FirstRun(bits: seq<bool>, n: nat, step: nat, from: nat): (r: Option<nat>)
    requires step >= 1
    ensures r.Some? ==> from <= r.value && r.value * step + n <= |bits| && RunFree(bits, r.value * step, n)
    ensures r.Some? ==> forall j :: from <= j < r.value ==> !RunFree(bits, j * step, n)
    ensures r.None? ==> forall j :: from <= j && j * step + n <= |bits| ==> !RunFree(bits, j * step, n)
    decreases |bits| + 1 - from * step
  {
    if from * step + n > |bits| then
      assert forall j :: from <= j ==> from * step <= j * step by {
        forall j | from <= j ensures from * step <= j * step {
          MulMonotone(from, j, step, step);
        }
      }
      None
    else if RunFree(bits, from * step, n) then Some(from)
    else
      assert (from + 1) * step == from * step + step;
      FirstRun(bits, n, step, from + 1)
  }

  /** A byte count rounded up to whole pages, the round-up done in u32 arithmetic. */
  function PagesFor(bytes: U32): nat
  {
    ToU32(bytes + PAGE_SIZE - 1) / PAGE_SIZE
  }

  /** The first page of the k-th slot when slots are `step` pages apart. */
  function SlotStart(k: nat, step: nat): nat
  {
    k * step
  }

  /** The bits after marking pages [s, s + n) used. */
  function MarkUsed(bits: seq<bool>, s: nat, n: nat): (r: seq<bool>)
    ensures |r| == |bits|
    ensures forall q :: 0 <= q < |bits| ==> r[q] == (if s <= q < s + n then false else bits[q])
  {
    seq(|bits|, q requires 0 <= q < |bits| => if s <= q < s + n then false else bits[q])
  }

  lemma MarkUsedNone(bits: seq<bool>, s: nat)
    ensures MarkUsed(bits, s, 0) == bits
  {
  }

  /** Marking one more page of a run is one more single-page update. */
  lemma MarkUsedStep(bits: seq<bool>, s: nat, i: nat)
    requires s + i < |bits|
    ensures MarkUsed(bits, s, i + 1) == MarkUsed(bits, s, i)[s + i := false]
  {
  }

  /** The page a physical address falls in, when it is inside the managed range. */
  function PageOf(start: nat, total: nat, paddr: nat): (r: Option<nat>)
    ensures r.Some? <==> paddr >= start && (paddr - start) / PAGE_SIZE < total
    ensures r.Some? ==> r.value < total && r.value == (paddr - start) / PAGE_SIZE
  {
    if paddr < start then None
    else if (paddr - start) / PAGE_SIZE >= total then None
    else Some((paddr - start) / PAGE_SIZE)
  }

  /** The effect of free_page on the bits: the page of an in-range address becomes free. */
  function FreePageBits(bits: seq<bool>, start: nat, paddr: nat): (r: seq<bool>)
    ensures |r| == |bits|
  {
    match PageOf(start, |bits|, paddr)
    case None => bits
    case Some(p) => bits[p := true]
  }

  /** The effect of free_pages(paddr, count): free_page on paddr + i * 4096 for i = 0..count-1 in turn, in u32 arithmetic. */
  function FreeRange(bits: seq<bool>, start: nat, paddr: U32, count: nat): (r: seq<bool>)
    ensures |r| == |bits|
  {
    if count == 0 then bits
    else FreePageBits(FreeRange(bits, start, paddr, count - 1), start, ToU32(paddr + (count - 1) * PAGE_SIZE))
  }

  /** free_pages only ever frees: a page free before is still free after. */
  lemma {:induction false} FreeRangeOnlyFrees(bits: seq<bool>, start: nat, paddr: U32, count: nat, q: nat)
    requires q < |bits| && bits[q]
    ensures FreeRange(bits, start, paddr, count)[q]
  {
    if count > 0 {
      FreeRangeOnlyFrees(bits, start, paddr, count - 1, q);
    }
  }

  /** free_pages of the n pages from an in-range page frees exactly those pages. */
  lemma {:induction false} FreeRangeFreesRun(bits: seq<bool>, start: nat, p: nat, n: nat)
    requires p + n <= |bits| && start + p * PAGE_SIZE < U32_BOUND && start + (p + n) * PAGE_SIZE <= U32_BOUND
    ensures FreeRange(bits, start, start + p * PAGE_SIZE, n) == FreeRun(bits, p, n)
  {
    if n > 0 {
      FreeRangeFreesRun(bits, start, p, n - 1);
      var a := start + p * PAGE_SIZE + (n - 1) * PAGE_SIZE;
      assert a == start + (p + n - 1) * PAGE_SIZE;
      assert ToU32(a) == a;
      assert (a - start) / PAGE_SIZE == p + n - 1;
    }
  }

  /** The bits after marking pages [s, s + n) free. */
  function FreeRun(bits: seq<bool>, s: nat, n: nat): (r: seq<bool>)
    ensures |r| == |bits|
    ensures forall q :: 0 <= q < |bits| ==> r[q] == (if s <= q < s + n then true else bits[q])
  {
    seq(|bits|, q requires 0 <= q < |bits| => if s <= q < s + n then true else bits[q])
  }

  /** Freeing the page just allocated restores the bits. */
  lemma AllocFreeRoundTrip(bits: seq<bool>, start: nat, p: nat)
    requires p < |bits| && bits[p]
    ensures FreePageBits(bits[p := false], start, start + p * PAGE_SIZE) == bits
  {
    assert (start + p * PAGE_SIZE - start) / PAGE_SIZE == p;
  }

  lemma SameWordBit(p: nat, q: nat)
    ensures (p / PAGES_PER_WORD == q / PAGES_PER_WORD && BitOf(p) == BitOf(q)) <==> p == q
  {
    if p / PAGES_PER_WORD == q / PAGES_PER_WORD && BitOf(p) == BitOf(q) {
      assert p % PAGES_PER_WORD == q % PAGES_PER_WORD;
    }
  }

  /** Rewriting one word leaves the pages of every other word as they were. */
  lemma OtherWordUnchanged(words: seq<bv32>, w: nat, x: bv32, q: nat)
    requires w < |words| && q / PAGES_PER_WORD != w
    ensures PageFreeIn(words[w := x], q) <==> PageFreeIn(words, q)
  {
    assert q / PAGES_PER_WORD < |words| ==> words[w := x][q / PAGES_PER_WORD] == words[q / PAGES_PER_WORD];
  }

  /** The words after set_page_used. */
  function SetWord(words: seq<bv32>, page: nat): seq<bv32>
    requires page / PAGES_PER_WORD < |words|
  {
    words[page / PAGES_PER_WORD := words[page / PAGES_PER_WORD] | Mask(BitOf(page))]
  }

  /** The words after set_page_free. */
  function ClearWord(words: seq<bv32>, page: nat): seq<bv32>
    requires page / PAGES_PER_WORD < |words|
  {
    words[page / PAGES_PER_WORD := words[page / PAGES_PER_WORD] & !Mask(BitOf(page))]
  }

  lemma SetSameWord(words: seq<bv32>, page: nat, q: nat)
    requires page / PAGES_PER_WORD < |words| && q / PAGES_PER_WORD == page / PAGES_PER_WORD
    ensures PageFreeIn(SetWord(words, page), q) <==> q != page && PageFreeIn(words, q)
  {
    var w := page / PAGES_PER_WORD;
    var x, bp, bq := words[w], BitOf(page), BitOf(q);
    WordSet(x, bp, bq);
    assert bp == bq <==> page == q by {
      SameWordBit(page, q);
    }
    assert PageFreeIn(SetWord(words, page), q) == BitClear(x | Mask(bp), bq);
    assert PageFreeIn(words, q) == BitClear(x, bq);
  }

  lemma ClearSameWord(words: seq<bv32>, page: nat, q: nat)
    requires page / PAGES_PER_WORD < |words| && q / PAGES_PER_WORD == page / PAGES_PER_WORD
    ensures PageFreeIn(ClearWord(words, page), q) <==> q == page || PageFreeIn(words, q)
  {
    var w := page / PAGES_PER_WORD;
    var x, bp, bq := words[w], BitOf(page), BitOf(q);
    WordClear(x, bp, bq);
    assert bp == bq <==> page == q by {
      SameWordBit(page, q);
    }
    assert PageFreeIn(ClearWord(words, page), q) == BitClear(x & !Mask(bp), bq);
    assert PageFreeIn(words, q) == BitClear(x, bq);
  }

  /** set_page_used changes the status of its page only, to used. */
  lemma SetPageEffect(words: seq<bv32>, page: nat, q: nat)
    requires page / PAGES_PER_WORD < |words|
    ensures PageFreeIn(SetWord(words, page), q) <==> q != page && PageFreeIn(words, q)
  {
    var w := page / PAGES_PER_WORD;
    if q / PAGES_PER_WORD == w {
      SetSameWord(words, page, q);
    } else {
      OtherWordUnchanged(words, w, words[w] | Mask(BitOf(page)), q);
    }
  }

  /** set_page_free changes the status of its page only, to free. */
  lemma ClearPageEffect(words: seq<bv32>, page: nat, q: nat)
    requires page / PAGES_PER_WORD < |words|
    ensures PageFreeIn(ClearWord(words, page), q) <==> q == page || PageFreeIn(words, q)
  {
    var w := page / PAGES_PER_WORD;
    if q / PAGES_PER_WORD == w {
      ClearSameWord(words, page, q);
    } else {
      OtherWordUnchanged(words, w, words[w] & !Mask(BitOf(page)), q);
    }
  }

  /** Setting a page's bit marks that page used and no other. */
  lemma SetPageBits(words: seq<bv32>, page: nat, n: nat)
    requires page < n && page / PAGES_PER_WORD < |words|
    ensures PageBits(SetWord(words, page), n) == PageBits(words, n)[page := false]
  {
    var after := SetWord(words, page);
    forall q | 0 <= q < n
      ensures PageFreeIn(after, q) == (q != page && PageFreeIn(words, q))
    {
      SetPageEffect(words, page, q);
    }
  }

  /** Clearing a page's bit marks that page free and no other. */
  lemma ClearPageBits(words: seq<bv32>, page: nat, n: nat)
    requires page < n && page / PAGES_PER_WORD < |words|
    ensures PageBits(ClearWord(words, page), n) == PageBits(words, n)[page := true]
  {
    var after := ClearWord(words, page);
    forall q | 0 <= q < n
      ensures PageFreeIn(after, q) == (q == page || PageFreeIn(words, q))
    {
      ClearPageEffect(words, page, q);
    }
  }

  /** Zeroed words mark every page free. */
  lemma ZeroWordsFree(words: seq<bv32>, n: nat)
    requires |words| == WordsFor(n)
    requires forall k :: 0 <= k < |words| ==> words[k] == 0
    ensures forall q :: 0 <= q < n ==> PageBits(words, n)[q]
  {
    forall q | 0 <= q < n
      ensures PageFreeIn(words, q)
    {
      assert q / PAGES_PER_WORD < |words|;
      assert words[q / PAGES_PER_WORD] == 0;
    }
  }

  /** Every page of the range has its word in the bitmap. */
  lemma WordInRange(page: nat, n: nat)
    requires page < n
    ensures page / PAGES_PER_WORD < WordsFor(n)
  {
  }

  /** A positive count of free pages means some page is free. */
  lemma {:induction false} FreeCountHasFree(bits: seq<bool>)
    requires CountFree(bits) > 0
    ensures exists q :: 0 <= q < |bits| && bits[q]
    decreases |bits|
  {
    var n := |bits|;
    if !bits[n - 1] {
      FreeCountHasFree(bits[..n - 1]);
      var q :| 0 <= q < n - 1 && bits[..n - 1][q];
      assert bits[q];
    }
  }

  /** Marking a run of free pages used takes exactly its length off the free count. */
  lemma {:induction false} CountMarkUsed(bits: seq<bool>, s: nat, n: nat)
    requires s + n <= |bits| && RunFree(bits, s, n)
    ensures CountFree(MarkUsed(bits, s, n)) == CountFree(bits) - n
  {
    if n > 0 {
      CountMarkUsed(bits, s, n - 1);
      var before := MarkUsed(bits, s, n - 1);
      assert MarkUsed(bits, s, n) == before[s + n - 1 := false];
      assert before[s + n - 1];
      CountUpdate(before, s + n - 1, false);
    } else {
      assert MarkUsed(bits, s, n) == bits;
    }
  }

  /** Freeing the run just allocated by alloc_pages restores the bits. */
  lemma AllocPagesFreePagesRoundTrip(bits: seq<bool>, start: nat, s: nat, n: nat)
    requires s + n <= |bits| && RunFree(bits, s, n)
    requires start + s * PAGE_SIZE < U32_BOUND && start + (s + n) * PAGE_SIZE <= U32_BOUND
    ensures FreeRange(MarkUsed(bits, s, n), start, start + s * PAGE_SIZE, n) == bits
  {
    FreeRangeFreesRun(MarkUsed(bits, s, n), start, s, n);
    assert FreeRun(MarkUsed(bits, s, n), s, n) == bits;
  }

  /** The run found by FirstRun from k when the run at k is free. */
  lemma FirstRunHere(bits: seq<bool>, n: nat, step: nat, k: nat)
    requires step >= 1 && k * step + n <= |bits| && RunFree(bits, k * step, n)
    ensures FirstRun(bits, n, step, k) == Some(k)
  {
  }

  /** The managed range of init(0x100000, 0x200000): 256 pages, one of them holding the bitmap. */
  lemma InitScenario()
    ensures (0x200000 - 0x100000) / PAGE_SIZE == 256
    ensures WordsFor(256) == 8 && MetadataPages(256) == 1
  {
  }

  // ---------------------------------------------------------------------------
  // The allocator state
  // ---------------------------------------------------------------------------

  class Bitmap {
    var bitmap: array<bv32>
    var totalPages: nat
    var freePages: nat
    var startAddr: U32
    var pageSize: nat
    var lastAllocated: nat

    /** The free/used status of each managed page. */
    function Bits(): (bits: seq<bool>)
      reads this`bitmap, this`totalPages, bitmap
      ensures |bits| == totalPages
    {
      PageBits(bitmap[..], totalPages)
    }

    /**
     * The bitmap covers every page, the managed range lies in the 32-bit
     * address space, free_pages counts the clear bits and the next-fit cursor
     * is a page of the range (or 0).
     */
    ghost predicate Valid()
      reads this, bitmap
    {
      bitmap.Length == WordsFor(totalPages)
      && startAddr + totalPages * PAGE_SIZE <= U32_BOUND
      && freePages == CountFree(Bits())
      && (lastAllocated < totalPages || lastAllocated == 0)
    }

    /** The zero-initialized static state, before init: no pages at all. */
    constructor ()
      ensures Valid() && totalPages == 0 && freePages == 0
    {
      bitmap := new bv32[0];
      totalPages := 0;
      freePages := 0;
      startAddr := 0;
      pageSize := 0;
      lastAllocated := 0;
    }

    /** is_page_free: the page's bit is clear. */
    function IsPageFree(page: nat): (r: bool)
      reads this`bitmap, this`totalPages, bitmap
      requires page < totalPages && bitmap.Length == WordsFor(totalPages)
      ensures r == Bits()[page]
    {
      BitClear(bitmap[page / PAGES_PER_WORD], BitOf(page))
    }

    /** set_page_used: the page becomes used and no other page changes. */
    method SetPageUsed(page: nat)
      requires page < totalPages && bitmap.Length == WordsFor(totalPages)
      modifies bitmap
      ensures Bits() == old(Bits())[page := false]
    {
      var w := page / PAGES_PER_WORD;
      SetPageBits(bitmap[..], page, totalPages);
      bitmap[w] := bitmap[w] | Mask(BitOf(page));
      assert bitmap[..] == SetWord(old(bitmap[..]), page);
    }

    /** set_page_free: the page becomes free and no other page changes. */
    method SetPageFree(page: nat)
      requires page < totalPages && bitmap.Length == WordsFor(totalPages)
      modifies bitmap
      ensures Bits() == old(Bits())[page := true]
    {
      var w := page / PAGES_PER_WORD;
      ClearPageBits(bitmap[..], page, totalPages);
      bitmap[w] := bitmap[w] & !Mask(BitOf(page));
      assert bitmap[..] == ClearWord(old(bitmap[..]), page);
    }

    /**
     * bitmap_init: manages the whole pages of [start, end), all free except
     * the leading pages the bitmap words would occupy, with the cursor at 0.
     */
    method Init(start: U32, end: U32) returns (rc: int)
      requires start <= end
      modifies this
      ensures rc == 0 && Valid() && fresh(bitmap)
      ensures startAddr == start && pageSize == PAGE_SIZE && lastAllocated == 0
      ensures totalPages == (end - start) / PAGE_SIZE
      ensures freePages == totalPages - MetadataPages(totalPages)
      ensures forall q :: 0 <= q < totalPages ==> Bits()[q] == (q >= MetadataPages(totalPages))
    {
      var total := (end - start) / PAGE_SIZE;
      var size := WordsFor(total);
      var words := new bv32[size];
      var i := 0;
      while i < size
        invariant 0 <= i <= size
        invariant forall k :: 0 <= k < i ==> words[k] == 0
      {
        words[i] := 0;
        i := i + 1;
      }
      ZeroWordsFree(words[..], total);
      startAddr, pageSize, totalPages, freePages, lastAllocated := start, PAGE_SIZE, total, total, 0;
      bitmap := words;
      var reserved := (size * 4 + PAGE_SIZE - 1) / PAGE_SIZE;
      MarkReserved(reserved);
      rc := 0;
    }

    /** The marking loop of bitmap_init: pages 0..reserved-1 become used, one by one. */
    method MarkReserved(reserved: nat)
      requires reserved <= totalPages && bitmap.Length == WordsFor(totalPages)
      requires freePages == totalPages && forall q :: 0 <= q < totalPages ==> Bits()[q]
      modifies this`freePages, bitmap
      ensures freePages == totalPages - reserved && freePages == CountFree(Bits())
      ensures forall q :: 0 <= q < totalPages ==> Bits()[q] == (q >= reserved)
    {
      var i := 0;
      while i < reserved
        invariant 0 <= i <= reserved
        invariant forall q :: 0 <= q < totalPages ==> Bits()[q] == (q >= i)
        invariant freePages == totalPages - i
      {
        SetPageUsed(i);
        freePages := freePages - 1;
        i := i + 1;
      }
      CountAllFree(Bits(), reserved);
    }

    /**
     * find_free_page: the first free page at or after `start`, else the first
     * before it, else 0xFFFFFFFF.
     */
    method FindFreePage(start: nat) returns (page: nat)
      requires bitmap.Length == WordsFor(totalPages) && start <= totalPages
      ensures page == match NextFit(Bits(), start) case Some(p) => p case None => NOT_FOUND
    {
      page := start;
      while page < totalPages
        invariant start <= page <= totalPages
        invariant forall q :: start <= q < page ==> !Bits()[q]
      {
        if IsPageFree(page) {
          assert FirstFree(Bits(), start, totalPages) == Some(page);
          return;
        }
        page := page + 1;
      }
      page := 0;
      while page < start
        invariant 0 <= page <= start
        invariant forall q :: 0 <= q < page ==> !Bits()[q]
      {
        if IsPageFree(page) {
          assert FirstFree(Bits(), 0, start) == Some(page);
          return;
        }
        page := page + 1;
      }
      page := NOT_FOUND;
    }

    /**
     * bitmap_alloc_page: with no free page, 0 and no change; otherwise the
     * next-fit page from the cursor becomes used, the count drops by one and
     * the cursor moves to it.
     */
    method AllocPage() returns (addr: U32)
      requires Valid()
      modifies this`freePages, this`lastAllocated, bitmap
      ensures Valid()
      ensures old(freePages) == 0 ==> addr == 0 && Bits() == old(Bits()) && freePages == 0 && lastAllocated == old(lastAllocated)
      ensures old(freePages) > 0 ==>
        NextFit(old(Bits()), old(lastAllocated)).Some?
        && var p := NextFit(old(Bits()), old(lastAllocated)).value;
        addr == startAddr + p * PAGE_SIZE && Bits() == old(Bits())[p := false]
        && freePages == old(freePages) - 1 && lastAllocated == p
    {
      if freePages == 0 {
        return 0;
      }
      FreeCountHasFree(Bits());
      var page := FindFreePage(lastAllocated);
      if page == NOT_FOUND {
        return 0;
      }
      CountUpdate(Bits(), page, false);
      SetPageUsed(page);
      freePages := freePages - 1;
      lastAllocated := page;
      addr := startAddr + page * PAGE_SIZE;
    }

    /** The inner scan of alloc_pages and alloc_aligned: are pages [s, s + n) all free? */
    method RunIsFree(s: nat, n: nat) returns (found: bool)
      requires bitmap.Length == WordsFor(totalPages) && s + n <= totalPages
      ensures found == RunFree(Bits(), s, n)
    {
      found := true;
      var i := 0;
      while i < n
        invariant 0 <= i <= n
        invariant forall t :: s <= t < s + i ==> Bits()[t]
      {
        if !IsPageFree(s + i) {
          return false;
        }
        i := i + 1;
      }
    }

    /**
     * The outer scan of alloc_pages (step 1) and alloc_aligned: the first
     * k with a free run of n pages at page k * step.
     */
    method FindRun(n: nat, step: nat) returns (r: Option<nat>)
      requires bitmap.Length == WordsFor(totalPages) && step >= 1 && n <= totalPages
      ensures r == FirstRun(Bits(), n, step, 0)
      ensures r.Some? ==> r.value * step + n <= totalPages && (n == 0 ==> r.value == 0)
    {
      var k := 0;
      var start := 0;
      while start <= totalPages - n
        invariant start == k * step
        invariant FirstRun(Bits(), n, step, k) == FirstRun(Bits(), n, step, 0)
        invariant n == 0 ==> k == 0
        decreases totalPages - start
      {
        var found := RunIsFree(start, n);
        if found {
          return Some(k);
        }
        k := k + 1;
        start := start + step;
      }
      r := None;
    }

    /** The marking loop of alloc_pages and alloc_aligned: a free run becomes used, page by page. */
    method MarkRun(s: nat, n: nat)
      requires Valid() && s + n <= totalPages && RunFree(Bits(), s, n)
      modifies this`freePages, bitmap
      ensures Valid()
      ensures Bits() == MarkUsed(old(Bits()), s, n) && freePages == old(freePages) - n
    {
      ghost var b0 := Bits();
      var i := 0;
      MarkUsedNone(b0, s);
      while i < n
        invariant 0 <= i <= n
        invariant Valid() && Bits() == MarkUsed(b0, s, i) && freePages == old(freePages) - i
      {
        UsePage(s + i);
        MarkUsedStep(b0, s, i);
        i := i + 1;
      }
    }

    /** One page of a run: a free page becomes used and one page fewer is free. */
    method UsePage(page: nat)
      requires Valid() && page < totalPages && Bits()[page]
      modifies this`freePages, bitmap
      ensures Valid() && Bits() == old(Bits())[page := false] && freePages == old(freePages) - 1
    {
      CountUpdate(Bits(), page, false);
      SetPageUsed(page);
      ghost var after := Bits();
      freePages := freePages - 1;
      assert Bits() == after;
    }

    /**
     * bitmap_alloc_pages: 0 and no change for count 0, for fewer free pages
     * than count, or when no run exists; otherwise the lowest run of count
     * free pages becomes used. The next-fit cursor is not touched.
     */
    method AllocPages(count: U32) returns (addr: U32)
      requires Valid()
      modifies this`freePages, bitmap
      ensures Valid()
      ensures var run := FirstRun(old(Bits()), count, 1, 0);
        if count == 0 || old(freePages) < count || run.None? then
          addr == 0 && Bits() == old(Bits()) && freePages == old(freePages)
        else
          addr == startAddr + run.value * PAGE_SIZE && Bits() == MarkUsed(old(Bits()), run.value, count)
          && freePages == old(freePages) - count
    {
      if count == 0 || freePages < count {
        return 0;
      }
      var run := FindRun(count, 1);
      if run.None? {
        return 0;
      }
      MarkRun(run.value, count);
      addr := startAddr + run.value * PAGE_SIZE;
    }

    /**
     * bitmap_free_page: an address below the range, past its last page or on
     * a free page changes nothing; otherwise its page becomes free and the
     * count grows by one.
     */
    method FreePage(paddr: U32)
      requires Valid()
      modifies this`freePages, bitmap
      ensures Valid()
      ensures Bits() == FreePageBits(old(Bits()), startAddr, paddr)
      ensures var p := PageOf(startAddr, totalPages, paddr);
        freePages == old(freePages) + (if p.Some? && !old(Bits())[p.value] then 1 else 0)
    {
      if paddr < startAddr {
        return;
      }
      var page := (paddr - startAddr) / PAGE_SIZE;
      if page >= totalPages {
        return;
      }
      if IsPageFree(page) {
        assert Bits()[page := true] == Bits();
        return;
      }
      CountUpdate(Bits(), page, true);
      SetPageFree(page);
      freePages := freePages + 1;
    }

    /** bitmap_free_pages: free_page on paddr + i * 4096 for i = 0..count-1, in u32 arithmetic. */
    method FreePages(paddr: U32, count: U32)
      requires Valid()
      modifies this`freePages, bitmap
      ensures Valid()
      ensures Bits() == FreeRange(old(Bits()), startAddr, paddr, count)
    {
      ghost var b0 := Bits();
      var i := 0;
      while i < count
        invariant 0 <= i <= count
        invariant Valid()
        invariant Bits() == FreeRange(b0, startAddr, paddr, i)
      {
        var a := ToU32(paddr + i * PAGE_SIZE);
        assert FreeRange(b0, startAddr, paddr, i + 1) == FreePageBits(FreeRange(b0, startAddr, paddr, i), startAddr, a);
        FreePage(a);
        i := i + 1;
      }
    }

    /** bitmap_get_free_pages: the number of free pages. */
    method GetFreePages() returns (n: nat)
      requires Valid()
      ensures n == CountFree(Bits()) && n <= totalPages
    {
      n := freePages;
    }

    /** bitmap_get_total_pages: the number of managed pages. */
    method GetTotalPages() returns (n: nat)
      ensures n == |Bits()|
    {
      n := totalPages;
    }

    /**
     * bitmap_alloc_aligned: size rounds up to whole pages and alignment to a
     * page step; the first free run of that many pages at a multiple of the
     * step becomes used (size 0 gives the start of the range and marks
     * nothing), else 0.
     */
    method AllocAligned(size: U32, alignment: U32) returns (addr: U32)
      requires Valid()
      requires PagesFor(alignment) >= 1 && PagesFor(size) <= totalPages
      modifies this`freePages, bitmap
      ensures Valid()
      ensures var need := PagesFor(size);
        var step := PagesFor(alignment);
        var run := FirstRun(old(Bits()), need, step, 0);
        if run.None? then
          addr == 0 && Bits() == old(Bits()) && freePages == old(freePages)
        else
          addr == startAddr + SlotStart(run.value, step) * PAGE_SIZE
          && Bits() == MarkUsed(old(Bits()), SlotStart(run.value, step), need)
          && freePages == old(freePages) - need
    {
      var need := PagesFor(size);
      var step := PagesFor(alignment);
      var run := FindRun(need, step);
      if run.None? {
        return 0;
      }
      var start := SlotStart(run.value, step);
      assert start + need <= totalPages && RunFree(Bits(), start, need);
      MulMonotone(start, totalPages, PAGE_SIZE, PAGE_SIZE);
      MarkRun(start, need);
      addr := startAddr + start * PAGE_SIZE;
    }

    /** bitmap_is_available: the address lies on a page of the range whose bit is clear. */
    method IsAvailable(paddr: U32) returns (r: bool)
      requires bitmap.Length == WordsFor(totalPages)
      ensures var p := PageOf(startAddr, totalPages, paddr);
        r == (p.Some? && Bits()[p.value])
    {
      if paddr < startAddr {
        return false;
      }
      var page := (paddr - startAddr) / PAGE_SIZE;
      if page >= totalPages {
        return false;
      }
      r := IsPageFree(page);
    }
  }
}
