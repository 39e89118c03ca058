/**
 * The page map set up at boot (kern/mm/pmm.c).
 *
 * `mem_map` has one byte per 4 KiB page of the 15 MiB above the first
 * megabyte.  pmm_init marks every page used, then frees the pages of main
 * memory, from `start_mem` to `end_mem`.
 */
module Pmm {
  const USED: nat := 100
  const LOW_MEM: int := 0x100000
  const PAGING_MEMORY: nat := 15 * 1024 * 1024
  const PG_SIZE: nat := 4096
  const PAGING_PAGES: nat := PAGING_MEMORY / PG_SIZE

  /** PAGING_PAGES is 3840. */
  lemma PagingPages()
    ensures PAGING_PAGES == 3840
  {
  }

  /**
   * MAP_NR: the page index of an address, `(addr - LOW_MEM) >> 12` on a
   * signed long; the arithmetic shift rounds down, as does division by a
   * positive number here.
   */
  function MapNr(addr: int): int {
    (addr - LOW_MEM) / PG_SIZE
  }

  /** The number of pages pmm_init frees: `(end_mem - start_mem) >> 12`. */
  function FreedPages(start: int, end: int): int {
    (end - start) / PG_SIZE
  }

  /**
   * What pmm_init needs of its caller: start_mem is not below LOW_MEM, and
   * unless end_mem lies below start_mem (then the count is negative and
   * nothing is freed) the freed entries lie inside mem_map.
   */
  predicate InMap(start: int, end: int) {
    LOW_MEM <= start && (end < start || MapNr(start) + FreedPages(start, end) <= PAGING_PAGES)
  }

  /** Whether entry j ends up free: it is one of the FreedPages entries from MapNr(start). */
  predicate Freed(start: int, end: int, j: int) {
    MapNr(start) <= j < MapNr(start) + FreedPages(start, end)
  }

  /**
   * For page-aligned bounds an entry is freed exactly when its whole page
   * lies in [start, end).
   */
  lemma FreedAligned(start: int, end: int, j: int)
    requires LOW_MEM <= start <= end
    requires (start - LOW_MEM) % PG_SIZE == 0 && (end - LOW_MEM) % PG_SIZE == 0
    ensures Freed(start, end, j) <==>
      start <= LOW_MEM + j * PG_SIZE && LOW_MEM + (j + 1) * PG_SIZE <= end
  {
    var a := MapNr(start);
    var c := FreedPages(start, end);
    assert start == LOW_MEM + a * PG_SIZE;
    assert end - start == c * PG_SIZE;
    assert end == LOW_MEM + (a + c) * PG_SIZE;
  }

  /** With end_mem below start_mem the shifted count is negative, so no entry is freed. */
  lemma ReversedFreesNothing(start: int, end: int, j: int)
    requires end < start
    ensures FreedPages(start, end) < 0 && !Freed(start, end, j)
  {
  }

  /** Every main-memory bound below 16 MiB keeps the freed entries inside the map. */
  lemma BelowSixteenMiB(start: int, end: int)
    requires LOW_MEM <= start <= end <= LOW_MEM + PAGING_MEMORY
    ensures InMap(start, end)
  {
    var a := start - LOW_MEM;
    var b := end - start;
    assert a / PG_SIZE * PG_SIZE <= a;
    assert b / PG_SIZE * PG_SIZE <= b;
    assert (a / PG_SIZE + b / PG_SIZE) * PG_SIZE <= PAGING_MEMORY;
  }

  class MemMap {
    /** mem_map. */
    const entries: array<nat>

    predicate Valid()
      reads this
    {
      entries.Length == PAGING_PAGES
    }

    constructor ()
      ensures Valid() && fresh(entries)
      ensures forall j :: 0 <= j < PAGING_PAGES ==> entries[j] == 0
    {
      entries := new nat[PAGING_PAGES](_ => 0);
    }

    /**
     * pmm_init: every entry USED, then the FreedPages entries from
     * MapNr(start) set to 0.
     */
    method Init(start: int, end: int)
      requires Valid() && InMap(start, end)
      modifies entries
      ensures forall j :: 0 <= j < PAGING_PAGES ==> entries[j] == if Freed(start, end, j) then 0 else USED
    {
      var i := 0;
      while i < PAGING_PAGES
        invariant i <= PAGING_PAGES
        invariant forall j :: 0 <= j < i ==> entries[j] == USED
      {
        entries[i] := USED;
        i := i + 1;
      }
      i := MapNr(start);
      var left := FreedPages(start, end);
      while left > 0
        invariant MapNr(start) <= i
        invariant FreedPages(start, end) <= 0 ==> i == MapNr(start)
        invariant FreedPages(start, end) > 0 ==> left >= 0 && i + left == MapNr(start) + FreedPages(start, end)
        invariant forall j :: 0 <= j < PAGING_PAGES ==> entries[j] == if MapNr(start) <= j < i then 0 else USED
      {
        entries[i] := 0;
        i := i + 1;
        left := left - 1;
      }
    }
  }
}
