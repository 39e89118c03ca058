/**
 * The first-fit physical page allocator (kern/mm/simple_pmm.c).
 *
 * Pages are the entries of one array, a page is named by its index, and a
 * free block by the index of its first page, whose `property` holds the
 * block's length in pages.  The intrusive doubly linked free list is the
 * sequence of block heads in list order, first to last; `nrFree` is the
 * free page count.
 */
module SimplePmm {
  import opened Opt

  /** PG_RESERVED is bit number 0 of the flags. */
  const PG_RESERVED: nat := 0

  /** struct Page without its list links, which the free list stands for. */
  datatype Page = Page(ref: int, flags: nat, property: nat, praVaddr: nat)

  /** Whether the reserved bit (bit 0) of the flags is set. */
  predicate Reserved(p: Page) {
    p.flags % 2 == 1
  }

  /** The flags with bit 0 set, as `flags | 1`. */
  function SetReserved(f: nat): (r: nat)
    ensures r % 2 == 1 && r / 2 == f / 2
  {
    f - f % 2 + 1
  }

  /** The flags with bit 0 cleared, as `flags & ~1`. */
  function ClearReserved(f: nat): (r: nat)
    ensures r % 2 == 0 && r / 2 == f / 2
  {
    f - f % 2
  }

  /** A page after init_memmap's first loop: ref, flags and property cleared. */
  function Cleared(p: Page): (r: Page)
    ensures r.ref == 0 && r.flags == 0 && r.property == 0 && r.praVaddr == p.praVaddr
  {
    p.(ref := 0, flags := 0, property := 0)
  }

  /** A page made the head of an n-page free block: its length set and its reserved bit set. */
  function BlockHead(p: Page, n: nat): (r: Page)
    ensures r.property == n && Reserved(r) && r.ref == p.ref && r.praVaddr == p.praVaddr
  {
    p.(property := n, flags := SetReserved(p.flags))
  }

  /** The pages a free block occupies: its length, and at least its head page. */
  function Span(len: nat): nat {
    if len == 0 then 1 else len
  }

  /** Two page ranges that do not meet. */
  predicate Apart(a: nat, la: nat, b: nat, lb: nat) {
    a + la <= b || b + lb <= a
  }

  /** The length of the block with head h, 0 outside the array. */
  function Len(ps: seq<Page>, h: nat): nat {
    if h < |ps| then ps[h].property else 0
  }

  /** Every listed block lies inside the page array and no two listed blocks meet. */
  predicate WellFormed(list: seq<nat>, ps: seq<Page>) {
    (forall k :: 0 <= k < |list| ==> list[k] + Span(Len(ps, list[k])) <= |ps|) &&
    (forall k, l :: 0 <= k < l < |list| ==>
       Apart(list[k], Span(Len(ps, list[k])), list[l], Span(Len(ps, list[l]))))
  }

  /** Any two distinct listed blocks of a well-formed list are apart, in either order. */
  lemma Separate(list: seq<nat>, ps: seq<Page>, k: nat, l: nat)
    requires WellFormed(list, ps) && k < |list| && l < |list| && k != l
    ensures Apart(list[k], Span(Len(ps, list[k])), list[l], Span(Len(ps, list[l])))
  {
    if l < k {
      assert Apart(list[l], Span(Len(ps, list[l])), list[k], Span(Len(ps, list[k])));
    }
  }

  /** Well-formedness only looks at the array length and the listed heads' lengths. */
  lemma FrameWellFormed(list: seq<nat>, ps1: seq<Page>, ps2: seq<Page>)
    requires WellFormed(list, ps1) && |ps1| == |ps2|
    requires forall k :: 0 <= k < |list| ==> Len(ps1, list[k]) == Len(ps2, list[k])
    ensures WellFormed(list, ps2)
  {
  }

  /** Dropping a block keeps a list well formed. */
  lemma RemoveWellFormed(list: seq<nat>, ps: seq<Page>, k: nat)
    requires WellFormed(list, ps) && k < |list|
    ensures WellFormed(list[..k] + list[k + 1..], ps)
  {
    var rest := list[..k] + list[k + 1..];
    forall a, c | 0 <= a < c < |rest|
      ensures Apart(rest[a], Span(Len(ps, rest[a])), rest[c], Span(Len(ps, rest[c])))
    {
      var a' := if a < k then a else a + 1;
      var c' := if c < k then c else c + 1;
      assert rest[a] == list[a'] && rest[c] == list[c'] && a' < c';
    }
    forall a | 0 <= a < |rest|
      ensures rest[a] + Span(Len(ps, rest[a])) <= |ps|
    {
      assert rest[a] == list[if a < k then a else a + 1];
    }
  }

  /** The pages held by the listed blocks. */
  function Sum(list: seq<nat>, ps: seq<Page>): nat {
    if |list| == 0 then 0
    else Sum(list[..|list| - 1], ps) + (if list[|list| - 1] < |ps| then ps[list[|list| - 1]].property else 0)
  }

  /** Sums only look at the lengths of the listed heads. */
  lemma {:induction false} SumFrame(list: seq<nat>, ps1: seq<Page>, ps2: seq<Page>)
    requires forall k :: 0 <= k < |list| ==> Len(ps1, list[k]) == Len(ps2, list[k])
    ensures Sum(list, ps1) == Sum(list, ps2)
  {
    if |list| > 0 {
      SumFrame(list[..|list| - 1], ps1, ps2);
    }
  }

  /** Replacing one head changes the sum by the difference of the two lengths. */
  lemma {:induction false} SumReplace(list: seq<nat>, ps: seq<Page>, k: nat, h: nat)
    requires k < |list|
    ensures Sum(list[k := h], ps) + Len(ps, list[k]) == Sum(list, ps) + Len(ps, h)
  {
    var last := |list| - 1;
    if k < last {
      assert list[k := h][..last] == list[..last][k := h];
      SumReplace(list[..last], ps, k, h);
    } else {
      assert list[k := h][..last] == list[..last];
    }
  }

  /** Removing one head takes its length off the sum. */
  lemma {:induction false} SumRemove(list: seq<nat>, ps: seq<Page>, k: nat)
    requires k < |list|
    ensures Sum(list[..k] + list[k + 1..], ps) + Len(ps, list[k]) == Sum(list, ps)
  {
    var last := |list| - 1;
    var rest := list[..k] + list[k + 1..];
    if k < last {
      assert rest[..|rest| - 1] == list[..last][..k] + list[..last][k + 1..];
      assert rest[|rest| - 1] == list[last];
      SumRemove(list[..last], ps, k);
    } else {
      assert rest == list[..last];
    }
  }

  /** Whether listed block k can serve a request for n pages. */
  predicate Fits(list: seq<nat>, ps: seq<Page>, k: nat, n: nat)
    requires k < |list|
  {
    Len(ps, list[k]) >= n
  }

  /** The list position of the first block with at least n pages. */
  function FirstFit(list: seq<nat>, ps: seq<Page>, n: nat): (r: Option<nat>)
    ensures r.Some? ==> r.value < |list| && Fits(list, ps, r.value, n)
  {
    if |list| == 0 then None
    else if Fits(list, ps, 0, n) then Some(0)
    else match FirstFit(list[1..], ps, n) {
      case None => None
      case Some(k) => Some(k + 1)
    }
  }

  /** No block before the one FirstFit picks, and none at all when it picks none, is big enough. */
  lemma {:induction false} FirstFitFirst(list: seq<nat>, ps: seq<Page>, n: nat, j: nat)
    requires j < |list|
    requires var r := FirstFit(list, ps, n); r.None? || j < r.value
    ensures !Fits(list, ps, j, n)
  {
    if j > 0 {
      FirstFitFirst(list[1..], ps, n, j - 1);
    }
  }

  /** A block that fits with none fitting before it is the one FirstFit picks; with none fitting it picks none. */
  lemma {:induction false} FirstFitIs(list: seq<nat>, ps: seq<Page>, n: nat, k: Option<nat>)
    requires k.Some? ==> k.value < |list| && Fits(list, ps, k.value, n)
    requires forall j :: 0 <= j < |list| && (k.None? || j < k.value) ==> !Fits(list, ps, j, n)
    ensures FirstFit(list, ps, n) == k
  {
    if |list| > 0 && k != Some(0) {
      assert !Fits(list, ps, 0, n);
      var k' := if k.None? then None else Some(k.value - 1);
      forall j | 0 <= j < |list[1..]| && (k'.None? || j < k'.value)
        ensures !Fits(list[1..], ps, j, n)
      {
        assert !Fits(list, ps, j + 1, n);
      }
      FirstFitIs(list[1..], ps, n, k');
    }
  }

  /** The free list after block k serves n pages: the remainder takes its place, or the block leaves. */
  function Carved(list: seq<nat>, ps: seq<Page>, k: nat, n: nat): seq<nat>
    requires k < |list|
  {
    if Len(ps, list[k]) > n then list[k := list[k] + n] else list[..k] + list[k + 1..]
  }

  /**
   * The pages after block b serves n pages: the remainder's head gets the
   * remaining length and the reserved bit, and b loses the reserved bit.
   */
  function CarvedPages(ps: seq<Page>, b: nat, n: nat): seq<Page>
    requires b < |ps| && (ps[b].property > n ==> b + n < |ps|)
  {
    var split := if ps[b].property > n
                 then ps[b + n := ps[b + n].(property := ps[b].property - n, flags := SetReserved(ps[b + n].flags))]
                 else ps;
    split[b := split[b].(flags := ClearReserved(split[b].flags))]
  }

  /**
   * In a well-formed list, the pages of listed block k other than its head
   * are no block's head, and the other blocks' heads lie outside it.
   */
  lemma InsideBlock(list: seq<nat>, ps: seq<Page>, k: nat, x: nat)
    requires WellFormed(list, ps) && k < |list|
    requires list[k] <= x < list[k] + Span(Len(ps, list[k]))
    ensures forall l :: 0 <= l < |list| && l != k ==> list[l] != x
  {
    forall l | 0 <= l < |list| && l != k
      ensures list[l] != x
    {
      Separate(list, ps, k, l);
    }
  }

  /** Carving keeps the free list well formed. */
  lemma CarveWellFormed(list: seq<nat>, ps: seq<Page>, k: nat, n: nat)
    requires WellFormed(list, ps) && k < |list| && 0 < n && Fits(list, ps, k, n)
    ensures WellFormed(Carved(list, ps, k, n), CarvedPages(ps, list[k], n))
  {
    var b := list[k];
    var len := ps[b].property;
    var ps' := CarvedPages(ps, b, n);
    InsideBlock(list, ps, k, b);
    if len > n {
      InsideBlock(list, ps, k, b + n);
      var list' := list[k := b + n];
      forall l | 0 <= l < |list| && l != k
        ensures Len(ps', list'[l]) == Len(ps, list[l])
      {
      }
      assert Len(ps', list'[k]) == len - n;
      forall a, c | 0 <= a < c < |list'|
        ensures Apart(list'[a], Span(Len(ps', list'[a])), list'[c], Span(Len(ps', list'[c])))
      {
        Separate(list, ps, a, c);
      }
    } else {
      forall l | 0 <= l < |list|
        ensures Len(ps', list[l]) == Len(ps, list[l])
      {
      }
      FrameWellFormed(list, ps, ps');
      RemoveWellFormed(list, ps', k);
    }
  }

  /** Lengths are read from `property` alone, so changing flags keeps every length. */
  lemma FlagsKeepLen(ps1: seq<Page>, ps2: seq<Page>)
    requires |ps1| == |ps2| && forall x :: 0 <= x < |ps1| ==> ps1[x].property == ps2[x].property
    ensures forall x: nat :: Len(ps1, x) == Len(ps2, x)
  {
  }

  /** Carving a block with pages to spare: the sum drops by n, when no other listed head is the remainder's page. */
  lemma CarveSumSplit(list: seq<nat>, ps: seq<Page>, k: nat, n: nat)
    requires k < |list| && list[k] + n < |ps| && ps[list[k]].property > n
    requires forall l :: 0 <= l < |list| && l != k ==> list[l] != list[k] + n
    ensures Sum(list[k := list[k] + n], CarvedPages(ps, list[k], n)) + n == Sum(list, ps)
  {
    var b := list[k];
    var list' := list[k := b + n];
    var psR := ps[b + n := ps[b + n].(property := ps[b].property - n)];
    FlagsKeepLen(CarvedPages(ps, b, n), psR);
    SumFrame(list', CarvedPages(ps, b, n), psR);
    assert forall l :: 0 <= l < |list| ==> Len(ps, list[l]) == Len(psR, list[l]);
    SumFrame(list, ps, psR);
    SumReplace(list, psR, k, b + n);
  }

  /** Carving a whole block: the sum drops by its length n. */
  lemma CarveSumWhole(list: seq<nat>, ps: seq<Page>, k: nat, n: nat)
    requires k < |list| && list[k] < |ps| && ps[list[k]].property == n
    ensures Sum(list[..k] + list[k + 1..], CarvedPages(ps, list[k], n)) + n == Sum(list, ps)
  {
    FlagsKeepLen(CarvedPages(ps, list[k], n), ps);
    SumFrame(list[..k] + list[k + 1..], CarvedPages(ps, list[k], n), ps);
    SumRemove(list, ps, k);
  }

  /** After carving, the block handed out is no longer listed. */
  lemma CarveUnlisted(list: seq<nat>, ps: seq<Page>, k: nat, n: nat)
    requires WellFormed(list, ps) && k < |list| && 0 < n && Fits(list, ps, k, n)
    ensures list[k] !in Carved(list, ps, k, n)
  {
    var b := list[k];
    InsideBlock(list, ps, k, b);
    var list' := Carved(list, ps, k, n);
    if Len(ps, b) > n {
      assert forall l :: 0 <= l < |list'| ==> list'[l] != b;
    } else {
      assert forall l :: 0 <= l < |list'| ==> list'[l] == list[if l < k then l else l + 1];
    }
  }

  /** Carving takes exactly n pages off the free total, and the block handed out is no longer listed. */
  lemma CarveSum(list: seq<nat>, ps: seq<Page>, k: nat, n: nat)
    requires WellFormed(list, ps) && k < |list| && 0 < n && Fits(list, ps, k, n)
    ensures Sum(Carved(list, ps, k, n), CarvedPages(ps, list[k], n)) + n == Sum(list, ps)
    ensures list[k] !in Carved(list, ps, k, n)
  {
    CarveUnlisted(list, ps, k, n);
    if Len(ps, list[k]) > n {
      InsideBlock(list, ps, k, list[k] + n);
      CarveSumSplit(list, ps, k, n);
    } else {
      CarveSumWhole(list, ps, k, n);
    }
  }

  /**
   * A new n-page block at base that meets no listed block, with no page
   * outside it changed, can be appended: the list stays well formed and
   * the sum grows by n.
   */
  lemma NewBlock(list: seq<nat>, ps: seq<Page>, ps': seq<Page>, base: nat, n: nat)
    requires WellFormed(list, ps) && |ps'| == |ps| && base + Span(n) <= |ps|
    requires forall k :: 0 <= k < |list| ==> Apart(list[k], Span(Len(ps, list[k])), base, Span(n))
    requires ps'[base].property == n
    requires forall x :: 0 <= x < |ps| && !(base <= x < base + Span(n)) ==> ps'[x] == ps[x]
    ensures WellFormed(list + [base], ps')
    ensures Sum(list + [base], ps') == Sum(list, ps) + n
  {
    forall k | 0 <= k < |list|
      ensures Len(ps', list[k]) == Len(ps, list[k])
    {
      assert Apart(list[k], Span(Len(ps, list[k])), base, Span(n));
    }
    FrameWellFormed(list, ps, ps');
    SumFrame(list, ps', ps);
    AppendBlock(list, ps', base);
  }

  /** Appending a block that meets no listed block keeps the list well formed and adds its length to the sum. */
  lemma AppendBlock(list: seq<nat>, ps: seq<Page>, base: nat)
    requires WellFormed(list, ps) && base + Span(Len(ps, base)) <= |ps|
    requires forall k :: 0 <= k < |list| ==> Apart(list[k], Span(Len(ps, list[k])), base, Span(Len(ps, base)))
    ensures WellFormed(list + [base], ps)
    ensures Sum(list + [base], ps) == Sum(list, ps) + Len(ps, base)
  {
    assert (list + [base])[..|list|] == list;
  }

  /** A request no block is big enough for is refused even when the free total would cover it. */
  lemma FragmentedRefusal()
    ensures var ps := [Page(0, 1, 2, 0), Page(0, 0, 0, 0), Page(0, 1, 2, 0), Page(0, 0, 0, 0)];
      Sum([0, 2], ps) == 4 && FirstFit([0, 2], ps, 3) == None
  {
    var ps := [Page(0, 1, 2, 0), Page(0, 0, 0, 0), Page(0, 1, 2, 0), Page(0, 0, 0, 0)];
    assert [0, 2][..1] == [0];
    assert [0, 2][1..] == [2];
  }

  /** How alloc's caller sees its return: a page, or no return value at all. */
  datatype Return = Returned(page: nat) | FellOffEnd

  /**
   * alloc's return as written: 0 when more pages are asked for than are
   * free, and otherwise control reaches the end of the function without a
   * return statement, found block or not.
   */
  function AllocReturnAsWritten(nrFree: nat, n: nat): Return {
    if n > nrFree then Returned(0) else FellOffEnd
  }

  /**
   * With one free block of four pages at page 0, a request for one page
   * is served from that block, yet alloc as written returns nothing.
   */
  lemma AllocReturnsNothing()
    ensures var ps := [Page(0, 1, 4, 0), Page(0, 0, 0, 0), Page(0, 0, 0, 0), Page(0, 0, 0, 0)];
      FirstFit([0], ps, 1) == Some(0) && AllocReturnAsWritten(Sum([0], ps), 1) == FellOffEnd
  {
    var ps := [Page(0, 1, 4, 0), Page(0, 0, 0, 0), Page(0, 0, 0, 0), Page(0, 0, 0, 0)];
    assert [0][..0] == [];
  }

  /**
   * The no-fit path falls off the end too: with two free blocks of two
   * pages, a request for three is within nr_free, no block covers it, and
   * alloc as written returns nothing rather than NULL.
   */
  lemma NoFitReturnsNothing()
    ensures var ps := [Page(0, 1, 2, 0), Page(0, 0, 0, 0), Page(0, 1, 2, 0), Page(0, 0, 0, 0)];
      FirstFit([0, 2], ps, 3) == None && AllocReturnAsWritten(Sum([0, 2], ps), 3) == FellOffEnd
  {
    FragmentedRefusal();
  }

  class Allocator {
    /** The page array the allocator manages. */
    const pages: array<Page>
    /** _free.free_list: the heads of the free blocks in list order. */
    var freeList: seq<nat>
    /** _free.nr_free. */
    var nrFree: nat

    /** The free list is well formed and nrFree counts its pages. */
    predicate Valid()
      reads this, pages
    {
      WellFormed(freeList, pages[..]) && nrFree == Sum(freeList, pages[..])
    }

    constructor (ps: array<Page>)
      ensures pages == ps && freeList == [] && nrFree == 0 && Valid()
    {
      pages := ps;
      freeList := [];
      nrFree := 0;
    }

    /** init: an empty free list and no free pages. */
    method Init()
      modifies this
      ensures freeList == [] && nrFree == 0 && Valid()
    {
      freeList := [];
      nrFree := 0;
    }

    /**
     * init_memmap: clear ref, flags and property on the n pages from base,
     * make base the head of an n-page reserved block at the tail of the
     * free list, and count its pages.  The pages must not meet a listed
     * block.  With n = 0 nothing is cleared, and base still becomes the
     * head of an empty block.
     */
    method InitMemmap(base: nat, n: nat)
      requires Valid() && base + Span(n) <= pages.Length
      requires forall k :: 0 <= k < |freeList| ==>
        Apart(freeList[k], Span(Len(pages[..], freeList[k])), base, Span(n))
      modifies this`freeList, this`nrFree, pages
      ensures Valid()
      ensures freeList == old(freeList) + [base] && nrFree == old(nrFree) + n
      ensures pages[base] == BlockHead(if n > 0 then Cleared(old(pages[base])) else old(pages[base]), n)
      ensures Reserved(pages[base])
      ensures forall j :: 0 <= j < pages.Length && j != base ==>
        pages[j] == if base < j < base + n then Cleared(old(pages[j])) else old(pages[j])
    {
      ghost var ps0 := pages[..];
      ClearRange(base, n);
      MakeHead(base, n);
      ghost var ps1 := pages[..];
      assert forall x :: 0 <= x < |ps1| && !(base <= x < base + Span(n)) ==> ps1[x] == ps0[x];
      NewBlock(freeList, ps0, ps1, base, n);
      freeList := freeList + [base];
      nrFree := nrFree + n;
    }

    /** The tail of init_memmap's page updates: base gets length n and the reserved bit. */
    method MakeHead(base: nat, n: nat)
      requires base < pages.Length
      modifies pages
      ensures pages[base] == BlockHead(old(pages[base]), n)
      ensures forall j :: 0 <= j < pages.Length && j != base ==> pages[j] == old(pages[j])
    {
      pages[base] := pages[base].(property := n);
      pages[base] := pages[base].(flags := SetReserved(pages[base].flags));
    }

    /** The first loop of init_memmap: the n pages from base cleared, the rest unchanged. */
    method ClearRange(base: nat, n: nat)
      requires base + n <= pages.Length
      modifies pages
      ensures forall j :: 0 <= j < pages.Length ==>
        pages[j] == if base <= j < base + n then Cleared(old(pages[j])) else old(pages[j])
    {
      var p := base;
      while p != base + n
        invariant base <= p <= base + n
        invariant forall j :: 0 <= j < pages.Length ==>
          pages[j] == if base <= j < p then Cleared(old(pages[j])) else old(pages[j])
      {
        pages[p] := Cleared(pages[p]);
        p := p + 1;
      }
    }

    /** The list walk of alloc: the first block with at least n pages, in list order. */
    method FindFirstFit(n: nat) returns (k: Option<nat>)
      requires Valid()
      ensures k.Some? ==> k.value < |freeList| && pages[freeList[k.value]].property >= n
      ensures forall j :: 0 <= j < |freeList| && (k.None? || j < k.value) ==> pages[freeList[j]].property < n
      ensures k == FirstFit(freeList, pages[..], n)
    {
      var i := 0;
      while i < |freeList|
        invariant i <= |freeList|
        invariant forall j :: 0 <= j < i ==> pages[freeList[j]].property < n
      {
        if pages[freeList[i]].property >= n {
          k := Some(i);
          FirstFitIs(freeList, pages[..], n, k);
          return;
        }
        i := i + 1;
      }
      k := None;
      FirstFitIs(freeList, pages[..], n, k);
    }

    /**
     * alloc with the evidently intended returns: none and no change when
     * more pages are asked for than are free or no block is big enough;
     * otherwise the first block that is big enough is carved: its page is
     * returned, the remainder (if any) takes its place in the list, and
     * nrFree drops by n.
     */
    method Alloc(n: nat) returns (r: Option<nat>)
      requires Valid() && n > 0
      modifies this`freeList, this`nrFree, pages
      ensures Valid()
      ensures var k := FirstFit(old(freeList), old(pages[..]), n);
        if n > old(nrFree) || k.None? then
          r.None? && freeList == old(freeList) && nrFree == old(nrFree) && pages[..] == old(pages[..])
        else
          r == Some(old(freeList)[k.value]) && nrFree == old(nrFree) - n &&
          freeList == Carved(old(freeList), old(pages[..]), k.value, n) &&
          pages[..] == CarvedPages(old(pages[..]), old(freeList)[k.value], n)
    {
      if n > nrFree {
        return None;
      }
      var k := FindFirstFit(n);
      if k.None? {
        return None;
      }
      ghost var list, ps := freeList, pages[..];
      CarveWellFormed(list, ps, k.value, n);
      CarveSum(list, ps, k.value, n);
      var page := freeList[k.value];
      Carve(k.value, n);
      nrFree := nrFree - n;
      return Some(page);
    }

    /**
     * The list and page updates of alloc once block i is chosen: for a
     * block with pages to spare, the remainder's head gets the remaining
     * length and the reserved bit and is linked in after it; then the block
     * is unlinked and loses the reserved bit.
     */
    method Carve(i: nat, n: nat)
      requires i < |freeList| && freeList[i] < pages.Length
      requires pages[freeList[i]].property > n ==> freeList[i] + n < pages.Length
      modifies this`freeList, pages
      ensures freeList == Carved(old(freeList), old(pages[..]), i, n)
      ensures pages[..] == CarvedPages(old(pages[..]), old(freeList)[i], n)
    {
      ghost var list := freeList;
      var page := freeList[i];
      if pages[page].property > n {
        var p := page + n;
        pages[p] := pages[p].(property := pages[page].property - n);
        pages[p] := pages[p].(flags := SetReserved(pages[p].flags));
        freeList := freeList[..i + 1] + [p] + freeList[i + 1..];
        assert freeList[..i] + freeList[i + 1..] == list[i := p];
      }
      freeList := freeList[..i] + freeList[i + 1..];
      pages[page] := pages[page].(flags := ClearReserved(pages[page].flags));
    }

    /** nr_free_pages: the number of pages in the listed blocks. */
    method NrFreePages() returns (n: nat)
      requires Valid()
      ensures n == Sum(freeList, pages[..])
    {
      return nrFree;
    }
  }

}
