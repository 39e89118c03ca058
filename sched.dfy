/**
 * The process table of the kernel (kern/sched/sched.c).
 *
 * In the kernel every task is a heap-allocated `task_struct` threaded on
 * three kinds of intrusive lists: the global `proc_list`, one of 1024 pid
 * hash chains, and the family links (`parent`, youngest child `cptr`, older
 * sibling `optr`, younger sibling `yptr`).  The model keeps the records in
 * an arena `tasks: map<TaskId, Task>`; a pointer becomes an
 * `Option<TaskId>`, a doubly linked list head becomes a `seq<TaskId>` in
 * list order (first element = `list_next` of the head).  The family
 * pointers of each task live in a second map, `links`, with the same keys.
 */
module Sched {
  import opened Opt

  /** HASH_SHIFT and HASH_LIST_SIZE. */
  const HASH_SHIFT: nat := 10
  const HASH_LIST_SIZE: nat := 1024
  /** The multiplier of hash32. */
  const GOLDEN: nat := 0x61C88647
  const INT_MAX: int := 0x7FFF_FFFF
  /** The interrupt-enable bit of EFLAGS. */
  const FL_IF: bv32 := 0x200
  /** Selector of the kernel code segment (GD_KTEXT). */
  const KERNEL_CS: bv32 := 0x8

  /** A task_struct pointer: the abstract address of a task record. */
  type TaskId = nat

  datatype TaskState = Uninit | Sleeping | Runnable | Running | Zombie

  /** `mm_struct` pointers: the shared kernel `init_mm` or some other one. */
  datatype Mm = InitMm | UserMm(id: nat)

  /** The registers of a trap frame that this file reads or writes. */
  datatype TrapFrame = TrapFrame(eax: bv32, esp: bv32, eflags: bv32, eip: bv32, cs: bv32)

  /** The saved kernel context used by switch_to. */
  datatype Context = Context(eip: bv32, esp: bv32)

  datatype Task = Task(
    pid: int,
    name: string,
    state: TaskState,
    kstack: bv32,
    mm: Option<Mm>,
    tf: Option<TrapFrame>,
    context: Context,
    flags: bv32,
    waitState: int,
    exitCode: Option<int>)

  /**
   * The family pointers of a task_struct: parent, youngest child (cptr),
   * older sibling (optr), younger sibling (yptr).  They are kept beside the
   * record, one entry per task, so that link surgery is stated on its own.
   */
  datatype Links = Links(parent: Option<TaskId>, cptr: Option<TaskId>, optr: Option<TaskId>, yptr: Option<TaskId>)

  type LinkMap = map<TaskId, Links>

  /** The links alloc_proc leaves: all NULL. */
  const NO_LINKS: Links := Links(None, None, None, None)

  // ---------------------------------------------------------------------
  // hash32 and pid_hashfn

  function Pow2(n: nat): (r: nat)
    ensures r >= 1
  {
    if n == 0 then 1 else 2 * Pow2(n - 1)
  }

  lemma {:induction false} Pow2Add(a: nat, b: nat)
    ensures Pow2(a + b) == Pow2(a) * Pow2(b)
  {
    if a > 0 {
      Pow2Add(a - 1, b);
    }
  }

  lemma DivBelow(x: nat, q: nat, d: nat)
    requires d > 0 && x < q * d
    ensures 0 <= x / d < q
  {
    var r := x / d;
    assert r * d <= x;
    assert (r - q) * d < 0;
  }

  lemma Pow2Word()
    ensures Pow2(32) == 0x1_0000_0000
  {
    assert Pow2(8) == 256 by { assert Pow2(4) == 16; }
    Pow2Add(8, 8);
    Pow2Add(16, 16);
  }

  /** Reduction modulo 2^32: what a uint32_t keeps of a value. */
  function Wrap32(x: int): (r: nat)
    ensures r < 0x1_0000_0000
  {
    x % 0x1_0000_0000
  }

  /** `w >> (32 - bits)` on a 32-bit word leaves a value below 2^bits. */
  function TopBits(w: nat, bits: nat): (r: nat)
    requires w < 0x1_0000_0000 && 1 <= bits <= 32
    ensures r < Pow2(bits)
  {
    var lo := Pow2(32 - bits);
    var hi := Pow2(bits);
    Pow2Add(bits, 32 - bits);
    Pow2Word();
    assert w < hi * lo;
    DivBelow(w, hi, lo);
    w / lo
  }

  /**
   * hash32(val, bits): multiply by the golden-ratio constant modulo 2^32 and
   * keep the top `bits` bits.  The result always indexes a table of 2^bits
   * chains.
   */
  function Hash32(val: nat, bits: nat): (h: nat)
    requires val < 0x1_0000_0000 && 1 <= bits <= 32
    ensures h < Pow2(bits)
  {
    TopBits(Wrap32(val * GOLDEN), bits)
  }

  /** pid_hashfn: the pid is converted to uint32_t before hashing. */
  function PidHash(pid: int): (h: nat)
    ensures h < HASH_LIST_SIZE
  {
    assert Pow2(HASH_SHIFT) == HASH_LIST_SIZE by {
      assert Pow2(5) == 32;
      Pow2Add(5, 5);
    }
    Hash32(Wrap32(pid), HASH_SHIFT)
  }

  // ---------------------------------------------------------------------
  // Sequences standing for intrusive lists

  ghost predicate Distinct<T>(s: seq<T>) {
    forall i, j :: 0 <= i < j < |s| ==> s[i] != s[j]
  }

  lemma DistinctCons<T>(x: T, s: seq<T>)
    requires Distinct(s) && x !in s
    ensures Distinct([x] + s)
  {
    forall i, j | 0 <= i < j < |[x] + s|
      ensures ([x] + s)[i] != ([x] + s)[j]
    {
      assert ([x] + s)[j] == s[j - 1];
    }
  }

  ghost predicate InArena(ts: map<TaskId, Task>, s: seq<TaskId>) {
    forall y :: y in s ==> y in ts
  }

  /** list_del on a list given as a sequence: every occurrence of x goes, the rest keeps its order. */
  function Remove(s: seq<TaskId>, x: TaskId): (r: seq<TaskId>)
    ensures forall y :: y in r <==> y in s && y != x
    ensures Distinct(s) ==> Distinct(r)
    ensures Distinct(s) && x in s ==> |r| == |s| - 1
    ensures x !in s ==> r == s
  {
    if s == [] then []
    else if s[0] == x then Remove(s[1..], x)
    else
      assert Distinct(s) ==> s[0] !in s[1..];
      [s[0]] + Remove(s[1..], x)
  }

  /** Removing the element at its index, for a list without repetitions. */
  lemma {:induction false} RemoveAt(s: seq<TaskId>, k: nat)
    requires Distinct(s) && k < |s|
    ensures Remove(s, s[k]) == s[..k] + s[k + 1..]
  {
    if k > 0 {
      RemoveAt(s[1..], k - 1);
      assert s[1..][..k - 1] == s[1..k];
      assert s[1..][k..] == s[k + 1..];
      assert s[..k] == [s[0]] + s[1..k];
    } else {
      assert s[1..] == s[k + 1..];
    }
  }

  /** The order in which reparenting re-threads a chain: reversed. */
  function Rev<T>(s: seq<T>): (r: seq<T>)
    ensures |r| == |s|
    ensures forall k :: 0 <= k < |s| ==> r[k] == s[|s| - 1 - k]
  {
    if s == [] then [] else [s[|s| - 1]] + Rev(s[..|s| - 1])
  }

  lemma DistinctAppend<T>(a: seq<T>, b: seq<T>)
    requires Distinct(a) && Distinct(b)
    requires forall k :: 0 <= k < |a| ==> a[k] !in b
    ensures Distinct(a + b)
  {
    forall i, j | 0 <= i < j < |a + b|
      ensures (a + b)[i] != (a + b)[j]
    {
      if j >= |a| {
        assert (a + b)[j] == b[j - |a|];
        if i < |a| {
          assert (a + b)[i] == a[i];
        } else {
          assert (a + b)[i] == b[i - |a|];
        }
      }
    }
  }

  lemma RevDistinct<T>(s: seq<T>)
    requires Distinct(s)
    ensures Distinct(Rev(s))
  {
    var r := Rev(s);
    forall i, j | 0 <= i < j < |r|
      ensures r[i] != r[j]
    {
      assert r[i] == s[|s| - 1 - i] && r[j] == s[|s| - 1 - j];
    }
  }

  lemma RevMembers<T>(s: seq<T>)
    ensures forall y :: y in Rev(s) <==> y in s
  {
    var r := Rev(s);
    forall y | y in s
      ensures y in r
    {
      var k :| 0 <= k < |s| && s[k] == y;
      assert r[|s| - 1 - k] == y;
    }
  }

  /** Taking one more element of s puts it at the front of the reversed prefix. */
  lemma RevSnoc<T>(s: seq<T>, i: nat)
    requires i < |s|
    ensures Rev(s[..i + 1]) == [s[i]] + Rev(s[..i])
  {
    assert s[..i + 1][..i] == s[..i];
  }

  // ---------------------------------------------------------------------
  // The family links

  /** The links a task has as a member of its parent's child chain. */
  ghost predicate SameSibling(a: Links, b: Links) {
    a.parent == b.parent && a.optr == b.optr && a.yptr == b.yptr
  }

  /**
   * `chain` is the child chain of p: p.cptr is its head (the youngest),
   * optr steps to the next older sibling, yptr back to the younger one, and
   * every member has p as its parent.
   */
  ghost predicate ChainOK(ls: LinkMap, p: TaskId, chain: seq<TaskId>) {
    p in ls &&
    (forall k :: 0 <= k < |chain| ==> chain[k] in ls && ls[chain[k]].parent == Some(p)) &&
    ls[p].cptr == (if |chain| == 0 then None else Some(chain[0])) &&
    (|chain| > 0 ==> ls[chain[0]].yptr.None? && ls[chain[|chain| - 1]].optr.None?) &&
    forall i, j :: 0 <= i < |chain| && 0 <= j < |chain| && j == i + 1 ==>
      ls[chain[i]].optr == Some(chain[j]) && ls[chain[j]].yptr == Some(chain[i])
  }

  lemma ChainAt(ls: LinkMap, p: TaskId, chain: seq<TaskId>, k: nat)
    requires ChainOK(ls, p, chain) && k < |chain|
    ensures chain[k] in ls && ls[chain[k]].parent == Some(p)
    ensures ls[chain[k]].optr == (if k + 1 < |chain| then Some(chain[k + 1]) else None)
    ensures ls[chain[k]].yptr == (if k == 0 then None else Some(chain[k - 1]))
  {
  }

  /** A chain survives any change that leaves the head pointer and the members' sibling links alone. */
  lemma ChainFrame(ls: LinkMap, ls': LinkMap, p: TaskId, chain: seq<TaskId>)
    requires ChainOK(ls, p, chain)
    requires p in ls' && ls'[p].cptr == ls[p].cptr
    requires forall k :: 0 <= k < |chain| ==> chain[k] in ls' && SameSibling(ls[chain[k]], ls'[chain[k]])
    ensures ChainOK(ls', p, chain)
  {
  }

  /** Pushing x on the front of p's child chain, as set_links and do_exit do. */
  lemma PrependChain(ls: LinkMap, ls': LinkMap, p: TaskId, x: TaskId, chain: seq<TaskId>)
    requires ChainOK(ls, p, chain) && x !in chain
    requires p in ls' && x in ls' && forall k :: 0 <= k < |chain| ==> chain[k] in ls'
    requires ls'[p].cptr == Some(x)
    requires ls'[x].parent == Some(p) && ls'[x].optr == ls[p].cptr && ls'[x].yptr.None?
    requires |chain| > 0 ==>
      ls'[chain[0]].parent == Some(p) && ls'[chain[0]].optr == ls[chain[0]].optr && ls'[chain[0]].yptr == Some(x)
    requires forall k :: 1 <= k < |chain| ==> SameSibling(ls[chain[k]], ls'[chain[k]])
    ensures ChainOK(ls', p, [x] + chain)
  {
    var c := [x] + chain;
    forall k | 0 <= k < |c|
      ensures c[k] in ls' && ls'[c[k]].parent == Some(p)
      ensures ls'[c[k]].optr == (if k + 1 < |c| then Some(c[k + 1]) else None)
      ensures ls'[c[k]].yptr == (if k == 0 then None else Some(c[k - 1]))
    {
      if k == 0 {
        assert |chain| > 0 ==> c[1] == chain[0];
      } else {
        var m := k - 1;
        assert c[k] == chain[m];
        ChainAt(ls, p, chain, m);
        assert k + 1 < |c| ==> c[k + 1] == chain[m + 1];
        assert c[k - 1] == if k == 1 then x else chain[k - 2];
      }
    }
    assert ls'[p].cptr == Some(c[0]);
  }

  /** The chains after x joins p's family as its youngest, childless member. */
  function AddChild(ch: map<TaskId, seq<TaskId>>, p: TaskId, x: TaskId): map<TaskId, seq<TaskId>>
    requires p in ch
  {
    ch[p := [x] + ch[p]][x := []]
  }

  /** The chains after x leaves p's family. */
  function DropChild(ch: map<TaskId, seq<TaskId>>, p: TaskId, x: TaskId): map<TaskId, seq<TaskId>>
    requires p in ch
  {
    ch[p := Remove(ch[p], x)]
  }

  /** The chains after do_exit hands all of x's children, in reverse, to the front of ini's chain. */
  function Reparent(ch: map<TaskId, seq<TaskId>>, x: TaskId, ini: TaskId): map<TaskId, seq<TaskId>>
    requires x in ch && ini in ch
  {
    ch[x := []][ini := Rev(ch[x]) + ch[ini]]
  }

  /** ch[p] is the child chain of p, made of registered tasks without repetition. */
  ghost predicate FamilyOK(ls: LinkMap, list: seq<TaskId>, ch: map<TaskId, seq<TaskId>>, p: TaskId) {
    p in ch && Distinct(ch[p]) && (forall k :: 0 <= k < |ch[p]| ==> ch[p][k] in list) &&
    ChainOK(ls, p, ch[p])
  }

  /** A registered task with a parent sits in its (registered) parent's chain. */
  ghost predicate ParentOK(ls: LinkMap, list: seq<TaskId>, ch: map<TaskId, seq<TaskId>>, c: TaskId) {
    c in ls && ls[c].parent != Some(c) &&
    (ls[c].parent.Some? ==>
      ls[c].parent.value in list && ls[c].parent.value in ch && c in ch[ls[c].parent.value])
  }

  /**
   * The family tree over the registered tasks `list`: ch[p] is the child
   * chain of each registered p, and every registered task with a parent
   * sits in its parent's chain.  The two halves are only instantiated where
   * a proof names FamilyOK or ParentOK, which keeps walks up and down the
   * tree from unfolding without end.
   */
  ghost predicate GraphOK(ls: LinkMap, list: seq<TaskId>, ch: map<TaskId, seq<TaskId>>) {
    (forall p :: p in list ==> p in ch) &&
    (forall p {:trigger FamilyOK(ls, list, ch, p)} :: p in list ==> FamilyOK(ls, list, ch, p)) &&
    (forall c {:trigger ParentOK(ls, list, ch, c)} :: c in list ==> ParentOK(ls, list, ch, c))
  }

  /** A registered task without children has an empty chain. */
  lemma NoChildren(ls: LinkMap, list: seq<TaskId>, ch: map<TaskId, seq<TaskId>>, x: TaskId)
    requires GraphOK(ls, list, ch) && x in list && x in ls && ls[x].cptr.None?
    ensures ch[x] == []
  {
    assert FamilyOK(ls, list, ch, x);
  }

  // ---------------------------------------------------------------------
  // set_links

  /** The links set_links leaves behind: x is pushed on the front of p's chain. */
  ghost predicate Linked(ls0: LinkMap, ls: LinkMap, x: TaskId, p: TaskId)
    requires x in ls0 && p in ls0
  {
    ls.Keys == ls0.Keys &&
    ls[x] == ls0[x].(yptr := None, optr := ls0[p].cptr) &&
    ls[p] == ls0[p].(cptr := Some(x)) &&
    (ls0[p].cptr.Some? ==>
      ls0[p].cptr.value in ls0 && ls[ls0[p].cptr.value] == ls0[ls0[p].cptr.value].(yptr := Some(x))) &&
    forall y :: y in ls0 && y != x && y != p && Some(y) != ls0[p].cptr ==> ls[y] == ls0[y]
  }

  lemma LinkFamilyParent(ls0: LinkMap, ls: LinkMap, list: seq<TaskId>,
                         ch: map<TaskId, seq<TaskId>>, x: TaskId, p: TaskId)
    requires FamilyOK(ls0, list, ch, p) && p in list && x in ls0 && x !in list
    requires forall k :: 0 <= k < |ch[p]| ==> ch[p][k] != p
    requires Linked(ls0, ls, x, p) && ls0[x].parent == Some(p)
    ensures FamilyOK(ls, [x] + list, AddChild(ch, p, x), p)
  {
    var c := ch[p];
    if |c| > 0 {
      ChainAt(ls0, p, c, 0);
    }
    forall k | 1 <= k < |c|
      ensures SameSibling(ls0[c[k]], ls[c[k]])
    {
      ChainAt(ls0, p, c, k);
    }
    PrependChain(ls0, ls, p, x, c);
    DistinctCons(x, c);
  }

  lemma LinkFamilyOther(ls0: LinkMap, ls: LinkMap, list: seq<TaskId>,
                        ch: map<TaskId, seq<TaskId>>, x: TaskId, p: TaskId, q: TaskId)
    requires FamilyOK(ls0, list, ch, q) && q in list && q != p && x in ls0 && x !in list && p in ls0 && p in ch
    requires Linked(ls0, ls, x, p)
    requires ls0[p].cptr.Some? ==> ls0[ls0[p].cptr.value].parent == Some(p)
    ensures FamilyOK(ls, [x] + list, AddChild(ch, p, x), q)
  {
    forall k | 0 <= k < |ch[q]|
      ensures ch[q][k] in ls && SameSibling(ls0[ch[q][k]], ls[ch[q][k]])
    {
      ChainAt(ls0, q, ch[q], k);
    }
    ChainFrame(ls0, ls, q, ch[q]);
  }

  /** set_links keeps the family tree well formed: x becomes the youngest child of p. */
  lemma LinkGraph(ls0: LinkMap, ls: LinkMap, list: seq<TaskId>,
                  ch: map<TaskId, seq<TaskId>>, x: TaskId, p: TaskId)
    requires GraphOK(ls0, list, ch)
    requires x in ls0 && x !in list && p in list && ls0[x].parent == Some(p) && ls0[x].cptr.None?
    requires p in ls0 && Linked(ls0, ls, x, p)
    ensures GraphOK(ls, [x] + list, AddChild(ch, p, x))
  {
    var L := [x] + list;
    var ch' := AddChild(ch, p, x);
    assert FamilyOK(ls0, list, ch, p);
    if ls0[p].cptr.Some? {
      ChainAt(ls0, p, ch[p], 0);
    }
    forall q | q in L
      ensures FamilyOK(ls, L, ch', q)
    {
      if q == p {
        forall k | 0 <= k < |ch[p]|
          ensures ch[p][k] != p
        {
          ChainAt(ls0, p, ch[p], k);
          assert ParentOK(ls0, list, ch, p);
        }
        LinkFamilyParent(ls0, ls, list, ch, x, p);
      } else if q != x {
        LinkFamilyOther(ls0, ls, list, ch, x, p, q);
      }
    }
    forall c | c in L
      ensures ParentOK(ls, L, ch', c)
    {
      if c != x {
        assert ParentOK(ls0, list, ch, c);
      }
    }
  }

  // ---------------------------------------------------------------------
  // remove_links

  /** The links remove_links leaves behind: x is spliced out of p's chain; x keeps its own stale pointers. */
  ghost predicate Unlinked(ls0: LinkMap, ls: LinkMap, x: TaskId, p: TaskId)
    requires x in ls0 && p in ls0
  {
    var o := ls0[x].optr;
    var y := ls0[x].yptr;
    ls.Keys == ls0.Keys &&
    (o.Some? ==> o.value in ls0 && ls[o.value] == ls0[o.value].(yptr := y)) &&
    (y.Some? ==> y.value in ls0 && ls[y.value] == ls0[y.value].(optr := o)) &&
    (y.None? ==> ls[p] == ls0[p].(cptr := o)) &&
    forall z :: z in ls0 && Some(z) != o && Some(z) != y && (y.Some? || z != p) ==> ls[z] == ls0[z]
  }

  /**
   * remove_links undoes set_links: linking x as the youngest child of p and
   * unlinking it again restores every other task's pointers, and list_del
   * gives back the proc_list that list_add extended.
   */
  lemma LinkUnlinkRoundTrip(ls0: LinkMap, ls1: LinkMap, ls2: LinkMap, list: seq<TaskId>, x: TaskId, p: TaskId)
    requires x in ls0 && p in ls0 && x != p && ls0[p].cptr != Some(x) && x !in list
    requires ls0[p].cptr.Some? ==> ls0[p].cptr.value in ls0 && ls0[ls0[p].cptr.value].yptr.None?
    requires Linked(ls0, ls1, x, p) && Unlinked(ls1, ls2, x, p)
    ensures ls2.Keys == ls0.Keys
    ensures forall z :: z in ls0 && z != x ==> ls2[z] == ls0[z]
    ensures Remove([x] + list, x) == list
  {
    assert ([x] + list)[1..] == list;
  }

  /** remove_links moves sibling and head pointers only: every parent stays. */
  lemma UnlinkedParents(ls0: LinkMap, ls: LinkMap, x: TaskId, p: TaskId)
    requires x in ls0 && p in ls0 && Unlinked(ls0, ls, x, p)
    ensures ls.Keys == ls0.Keys && forall y :: y in ls0 ==> ls[y].parent == ls0[y].parent
  {
  }

  /** After splicing out c[k], every other member n keeps p as parent and links to its nearest remaining neighbours. */
  lemma UnlinkMember(ls0: LinkMap, ls: LinkMap, p: TaskId, c: seq<TaskId>, k: nat, n: nat)
    requires ChainOK(ls0, p, c) && Distinct(c) && k < |c| && p !in c && n < |c| && n != k
    requires Unlinked(ls0, ls, c[k], p)
    ensures c[n] in ls && ls[c[n]].parent == Some(p)
    ensures ls[c[n]].optr == (var o := if n + 1 == k then n + 2 else n + 1; if o < |c| then Some(c[o]) else None)
    ensures ls[c[n]].yptr == (var y := if n == k + 1 then n - 2 else n - 1; if y >= 0 then Some(c[y]) else None)
  {
    ChainAt(ls0, p, c, k);
    ChainAt(ls0, p, c, n);
  }

  /** Splicing out the member at index k leaves the rest of the chain in order. */
  lemma UnlinkChain(ls0: LinkMap, ls: LinkMap, p: TaskId, c: seq<TaskId>, k: nat)
    requires ChainOK(ls0, p, c) && Distinct(c) && k < |c| && p !in c
    requires Unlinked(ls0, ls, c[k], p)
    ensures ChainOK(ls, p, c[..k] + c[k + 1..])
  {
    var c' := c[..k] + c[k + 1..];
    assert |c'| == |c| - 1;
    forall m | 0 <= m < |c'|
      ensures c'[m] in ls && ls[c'[m]].parent == Some(p)
      ensures ls[c'[m]].optr == (if m + 1 < |c'| then Some(c'[m + 1]) else None)
      ensures ls[c'[m]].yptr == (if m == 0 then None else Some(c'[m - 1]))
    {
      var n := if m < k then m else m + 1;
      assert c'[m] == c[n];
      UnlinkMember(ls0, ls, p, c, k, n);
      if m + 1 < |c'| {
        assert c'[m + 1] == c[if m + 1 < k then m + 1 else m + 2];
      }
      if m > 0 {
        assert c'[m - 1] == c[if m - 1 < k then m - 1 else m];
      }
    }
    ChainAt(ls0, p, c, k);
    if |c'| > 0 {
      assert c'[0] == c[if k == 0 then 1 else 0];
    }
  }

  lemma UnlinkFamilyOther(ls0: LinkMap, ls: LinkMap, list: seq<TaskId>, ch: map<TaskId, seq<TaskId>>,
                          x: TaskId, p: TaskId, q: TaskId)
    requires FamilyOK(ls0, list, ch, q) && q != p && q != x && x in ls0 && p in ls0 && p in ch
    requires ls0[x].parent == Some(p)
    requires ls0[x].optr.Some? ==> ls0[x].optr.value in ls0 && ls0[ls0[x].optr.value].parent == Some(p)
    requires ls0[x].yptr.Some? ==> ls0[x].yptr.value in ls0 && ls0[ls0[x].yptr.value].parent == Some(p)
    requires Unlinked(ls0, ls, x, p)
    ensures FamilyOK(ls, Remove(list, x), DropChild(ch, p, x), q)
  {
    forall k | 0 <= k < |ch[q]|
      ensures ch[q][k] in ls && SameSibling(ls0[ch[q][k]], ls[ch[q][k]]) && ch[q][k] != x
    {
      ChainAt(ls0, q, ch[q], k);
    }
    ChainFrame(ls0, ls, q, ch[q]);
  }

  /** No task is in its own child chain. */
  lemma NotOwnChild(ls: LinkMap, p: TaskId, c: seq<TaskId>)
    requires ChainOK(ls, p, c) && ls[p].parent != Some(p)
    ensures p !in c
  {
    forall j | 0 <= j < |c|
      ensures c[j] != p
    {
      ChainAt(ls, p, c, j);
    }
  }

  /** The chains of two different parents share no task. */
  lemma ChainsApart(ls: LinkMap, p: TaskId, cp: seq<TaskId>, q: TaskId, cq: seq<TaskId>)
    requires ChainOK(ls, p, cp) && ChainOK(ls, q, cq) && p != q
    ensures forall y :: y in cp ==> y !in cq
  {
    forall k, j | 0 <= k < |cp| && 0 <= j < |cq|
      ensures cp[k] != cq[j]
    {
      ChainAt(ls, p, cp, k);
      ChainAt(ls, q, cq, j);
    }
  }

  /** x leaves p's chain, which stays a chain over the remaining tasks. */
  lemma UnlinkFamilyParent(ls0: LinkMap, ls: LinkMap, list: seq<TaskId>, ch: map<TaskId, seq<TaskId>>,
                           x: TaskId, p: TaskId)
    requires FamilyOK(ls0, list, ch, p) && x in ch[p] && p !in ch[p] && x in ls0 && p in ls0
    requires Unlinked(ls0, ls, x, p)
    ensures FamilyOK(ls, Remove(list, x), DropChild(ch, p, x), p)
  {
    var k :| 0 <= k < |ch[p]| && ch[p][k] == x;
    RemoveAt(ch[p], k);
    UnlinkChain(ls0, ls, p, ch[p], k);
  }

  /** remove_links keeps every remaining task in its parent's chain. */
  lemma UnlinkParents(ls0: LinkMap, ls: LinkMap, list: seq<TaskId>, ch: map<TaskId, seq<TaskId>>,
                      x: TaskId, p: TaskId)
    requires GraphOK(ls0, list, ch) && x in ch && ch[x] == [] && p in ch
    requires ls.Keys == ls0.Keys && forall y :: y in ls0 ==> ls[y].parent == ls0[y].parent
    ensures forall c :: c in Remove(list, x) ==> ParentOK(ls, Remove(list, x), DropChild(ch, p, x), c)
  {
    forall c | c in Remove(list, x)
      ensures ParentOK(ls, Remove(list, x), DropChild(ch, p, x), c)
    {
      assert ParentOK(ls0, list, ch, c);
    }
  }

  /** remove_links keeps the family tree well formed: x, childless, leaves its parent's chain. */
  lemma UnlinkGraph(ls0: LinkMap, ls: LinkMap, list: seq<TaskId>, ch: map<TaskId, seq<TaskId>>,
                    x: TaskId, p: TaskId)
    requires GraphOK(ls0, list, ch) && Distinct(list)
    requires x in list && x in ls0 && ls0[x].parent == Some(p) && ls0[x].cptr.None?
    requires p in ls0 && p in ch && Unlinked(ls0, ls, x, p)
    requires forall y :: y in ls0 ==> ls[y].parent == ls0[y].parent
    ensures GraphOK(ls, Remove(list, x), DropChild(ch, p, x))
  {
    var L := Remove(list, x);
    var ch' := DropChild(ch, p, x);
    assert ParentOK(ls0, list, ch, x);
    assert FamilyOK(ls0, list, ch, p);
    assert ParentOK(ls0, list, ch, p);
    NoChildren(ls0, list, ch, x);
    NotOwnChild(ls0, p, ch[p]);
    var k :| 0 <= k < |ch[p]| && ch[p][k] == x;
    if k > 0 {
      ChainAt(ls0, p, ch[p], k - 1);
    }
    if k + 1 < |ch[p]| {
      ChainAt(ls0, p, ch[p], k + 1);
    }
    ChainAt(ls0, p, ch[p], k);
    forall q | q in L
      ensures FamilyOK(ls, L, ch', q)
    {
      if q == p {
        UnlinkFamilyParent(ls0, ls, list, ch, x, p);
      } else {
        assert FamilyOK(ls0, list, ch, q);
        UnlinkFamilyOther(ls0, ls, list, ch, x, p, q);
      }
    }
    UnlinkParents(ls0, ls, list, ch, x, p);
  }

  // ---------------------------------------------------------------------
  // do_exit's reparenting loop

  /** One round of do_exit's loop: the youngest child of x moves to the front of ini's chain. */
  function Adopt(ls: LinkMap, x: TaskId, ini: TaskId): (r: LinkMap)
    requires x != ini && x in ls && ini in ls && ls[x].cptr.Some?
    requires ls[x].cptr.value in ls && ls[x].cptr.value != x && ls[x].cptr.value != ini
    requires ls[ini].cptr.Some? ==> ls[ini].cptr.value in ls && ls[ini].cptr != ls[x].cptr
    ensures r.Keys == ls.Keys
    ensures var proc := ls[x].cptr.value; var ih := ls[ini].cptr;
      forall z :: z in ls ==>
        r[z].cptr == (if z == ini then Some(proc) else if z == x then ls[proc].optr else ls[z].cptr) &&
        r[z].parent == (if z == proc then Some(ini) else ls[z].parent) &&
        r[z].optr == (if z == proc then ih else ls[z].optr) &&
        r[z].yptr == (if z == proc then None else if Some(z) == ih then Some(proc) else ls[z].yptr)
  {
    var proc := ls[x].cptr.value;
    var l1 := ls[x := ls[x].(cptr := ls[proc].optr)];
    var ih := l1[ini].cptr;
    var l2 := l1[proc := l1[proc].(yptr := None, optr := ih)];
    var l3 := if ih.Some? then l2[ih.value := l2[ih.value].(yptr := Some(proc))] else l2;
    var l4 := l3[proc := l3[proc].(parent := Some(ini))];
    l4[ini := l4[ini].(cptr := Some(proc))]
  }

  /** What do_exit's loop starts from: x's chain C and init's chain I0, disjoint. */
  ghost predicate Orphans(L0: LinkMap, x: TaskId, ini: TaskId, C: seq<TaskId>, I0: seq<TaskId>) {
    x != ini && ChainOK(L0, x, C) && ChainOK(L0, ini, I0) && Distinct(C) && Distinct(I0) &&
    L0[ini].parent != Some(ini) && L0[ini].parent != Some(x) &&
    (forall k :: 0 <= k < |C| ==> C[k] != x && C[k] != ini && C[k] !in I0) &&
    (forall k :: 0 <= k < |I0| ==> I0[k] != ini)
  }

  /** The pointers do_exit's loop has not touched after i rounds. */
  ghost predicate Untouched(L0: LinkMap, ls: LinkMap, x: TaskId, ini: TaskId, C: seq<TaskId>, I0: seq<TaskId>, i: nat)
    requires i <= |C| && ls.Keys == L0.Keys
  {
    (forall z :: z in L0 && z != x && z != ini ==> ls[z].cptr == L0[z].cptr) &&
    (forall z :: z in L0 && z !in C[..i] ==> ls[z].parent == L0[z].parent && ls[z].optr == L0[z].optr) &&
    (forall z :: z in L0 && z !in C[..i] && (i == 0 || |I0| == 0 || z != I0[0]) ==> ls[z].yptr == L0[z].yptr)
  }

  /**
   * The loop invariant of do_exit after i rounds: the first i children of x
   * now head init's chain in reverse order, x's chain starts at C[i], and no
   * other pointer has moved.
   */
  ghost predicate Moved(L0: LinkMap, ls: LinkMap, x: TaskId, ini: TaskId, C: seq<TaskId>, I0: seq<TaskId>, i: nat) {
    i <= |C| && ls.Keys == L0.Keys && x in ls && ini in ls &&
    ls[x].cptr == (if i < |C| then Some(C[i]) else None) &&
    ChainOK(ls, ini, Rev(C[..i]) + I0) &&
    Untouched(L0, ls, x, ini, C, I0, i)
  }

  lemma MovedStart(L0: LinkMap, x: TaskId, ini: TaskId, C: seq<TaskId>, I0: seq<TaskId>)
    requires Orphans(L0, x, ini, C, I0)
    ensures Moved(L0, L0, x, ini, C, I0, 0)
  {
    assert C[..0] == [];
    assert Rev(C[..0]) + I0 == I0;
  }

  /** init's chain after i rounds holds no task twice and not C[i]. */
  lemma MovedChainDistinct(L0: LinkMap, x: TaskId, ini: TaskId, C: seq<TaskId>, I0: seq<TaskId>, i: nat)
    requires Orphans(L0, x, ini, C, I0) && i < |C|
    ensures Distinct(Rev(C[..i]) + I0) && C[i] !in Rev(C[..i]) + I0
  {
    RevMembers(C[..i]);
    RevDistinct(C[..i]);
    forall k | 0 <= k < |Rev(C[..i])|
      ensures Rev(C[..i])[k] !in I0
    {
      assert Rev(C[..i])[k] in C[..i];
    }
    DistinctAppend(Rev(C[..i]), I0);
    assert C[i] !in C[..i];
  }

  /** The state before a round meets what Adopt asks of it. */
  lemma AdoptReady(L0: LinkMap, ls: LinkMap, x: TaskId, ini: TaskId, C: seq<TaskId>, I0: seq<TaskId>, i: nat)
    requires Orphans(L0, x, ini, C, I0) && Moved(L0, ls, x, ini, C, I0, i) && i < |C|
    ensures ls[x].cptr == Some(C[i]) && C[i] in ls && C[i] != x && C[i] != ini
    ensures ls[ini].cptr.Some? ==> ls[ini].cptr.value in ls && ls[ini].cptr != Some(C[i])
  {
    ChainAt(L0, x, C, i);
    MovedChainDistinct(L0, x, ini, C, I0, i);
    var S := Rev(C[..i]) + I0;
    if |S| > 0 {
      ChainAt(ls, ini, S, 0);
    }
  }

  /** One more element of a prefix. */
  lemma PrefixSnoc<T>(C: seq<T>, i: nat)
    requires i < |C|
    ensures forall z :: z in C[..i + 1] <==> z in C[..i] || z == C[i]
    ensures i > 0 ==> C[i - 1] in C[..i + 1]
  {
    assert C[..i + 1] == C[..i] + [C[i]];
  }

  /** The head of init's chain after i rounds: the last child moved, or init's own youngest. */
  lemma MovedHead(ls: LinkMap, ini: TaskId, C: seq<TaskId>, I0: seq<TaskId>, i: nat)
    requires i <= |C| && ChainOK(ls, ini, Rev(C[..i]) + I0)
    ensures ls[ini].cptr == (if i > 0 then Some(C[i - 1]) else if |I0| > 0 then Some(I0[0]) else None)
  {
    if i > 0 {
      assert (Rev(C[..i]) + I0)[0] == C[..i][i - 1];
    } else {
      assert Rev(C[..i]) + I0 == I0;
    }
  }

  /** A round leaves the untouched pointers untouched, one more child of x aside. */
  lemma AdoptUntouched(L0: LinkMap, ls: LinkMap, x: TaskId, ini: TaskId, C: seq<TaskId>, I0: seq<TaskId>, i: nat)
    requires i < |C| && ls.Keys == L0.Keys && Untouched(L0, ls, x, ini, C, I0, i)
    requires x != ini && x in ls && ini in ls
    requires ls[x].cptr == Some(C[i]) && C[i] in ls && C[i] != x && C[i] != ini
    requires ls[ini].cptr.Some? ==> ls[ini].cptr.value in ls && ls[ini].cptr != Some(C[i])
    requires ls[ini].cptr == (if i > 0 then Some(C[i - 1]) else if |I0| > 0 then Some(I0[0]) else None)
    ensures Untouched(L0, Adopt(ls, x, ini), x, ini, C, I0, i + 1)
  {
    var ls' := Adopt(ls, x, ini);
    var proc := C[i];
    PrefixSnoc(C, i);
    forall z | z in L0 && z !in C[..i + 1]
      ensures z !in C[..i] && z != proc
      ensures ls'[z].parent == L0[z].parent && ls'[z].optr == L0[z].optr
      ensures (|I0| == 0 || z != I0[0]) ==> ls'[z].yptr == L0[z].yptr
    {
    }
  }

  /** A round pushes x's youngest child on the front of ini's chain S. */
  lemma AdoptPrepend(ls: LinkMap, x: TaskId, ini: TaskId, S: seq<TaskId>)
    requires x != ini && x in ls && ini in ls && ls[x].cptr.Some?
    requires ls[x].cptr.value in ls && ls[x].cptr.value != x && ls[x].cptr.value != ini
    requires ls[ini].cptr.Some? ==> ls[ini].cptr.value in ls && ls[ini].cptr != ls[x].cptr
    requires ChainOK(ls, ini, S) && ls[x].cptr.value !in S
    ensures ChainOK(Adopt(ls, x, ini), ini, [ls[x].cptr.value] + S)
  {
    var ls' := Adopt(ls, x, ini);
    forall k | 0 <= k < |S|
      ensures S[k] in ls'
      ensures k >= 1 ==> SameSibling(ls[S[k]], ls'[S[k]])
    {
      ChainAt(ls, ini, S, k);
    }
    if |S| > 0 {
      ChainAt(ls, ini, S, 0);
    }
    PrependChain(ls, ls', ini, ls[x].cptr.value, S);
  }

  /** A round pushes C[i] on the front of init's chain. */
  lemma AdoptChain(ls: LinkMap, x: TaskId, ini: TaskId, C: seq<TaskId>, I0: seq<TaskId>, i: nat)
    requires i < |C| && x != ini && x in ls && ini in ls
    requires ls[x].cptr == Some(C[i]) && C[i] in ls && C[i] != x && C[i] != ini
    requires ls[ini].cptr.Some? ==> ls[ini].cptr.value in ls && ls[ini].cptr != Some(C[i])
    requires ChainOK(ls, ini, Rev(C[..i]) + I0) && C[i] !in Rev(C[..i]) + I0
    ensures ChainOK(Adopt(ls, x, ini), ini, Rev(C[..i + 1]) + I0)
  {
    var S := Rev(C[..i]) + I0;
    AdoptPrepend(ls, x, ini, S);
    RevSnoc(C, i);
    assert Rev(C[..i + 1]) + I0 == [C[i]] + S;
  }

  lemma AdoptStep(L0: LinkMap, ls: LinkMap, x: TaskId, ini: TaskId, C: seq<TaskId>, I0: seq<TaskId>, i: nat)
    requires Orphans(L0, x, ini, C, I0) && Moved(L0, ls, x, ini, C, I0, i) && i < |C|
    ensures ls[x].cptr == Some(C[i]) && C[i] in ls && C[i] != x && C[i] != ini
    ensures ls[ini].cptr.Some? ==> ls[ini].cptr.value in ls && ls[ini].cptr != Some(C[i])
    ensures Moved(L0, Adopt(ls, x, ini), x, ini, C, I0, i + 1)
  {
    AdoptReady(L0, ls, x, ini, C, I0, i);
    MovedHead(ls, ini, C, I0, i);
    AdoptUntouched(L0, ls, x, ini, C, I0, i);
    MovedChainDistinct(L0, x, ini, C, I0, i);
    AdoptChain(ls, x, ini, C, I0, i);
    ChainAt(L0, x, C, i);
  }

  /** The chain of a third parent q survives the loop: none of its members or pointers moved. */
  lemma ReparentOther(L0: LinkMap, ls: LinkMap, list: seq<TaskId>, ch: map<TaskId, seq<TaskId>>,
                      x: TaskId, ini: TaskId, q: TaskId)
    requires FamilyOK(L0, list, ch, q) && q != x && q != ini && x in ch && ini in ch
    requires ChainOK(L0, x, ch[x]) && ChainOK(L0, ini, ch[ini]) && q in ls
    requires ls.Keys == L0.Keys && ls[q].cptr == L0[q].cptr
    requires forall z :: z in L0 && z !in ch[x] ==> ls[z].parent == L0[z].parent && ls[z].optr == L0[z].optr
    requires forall z :: z in L0 && z !in ch[x] && (|ch[ini]| == 0 || z != ch[ini][0]) ==> ls[z].yptr == L0[z].yptr
    ensures FamilyOK(ls, list, Reparent(ch, x, ini), q)
  {
    ChainsApart(L0, q, ch[q], x, ch[x]);
    if |ch[ini]| > 0 {
      ChainAt(L0, ini, ch[ini], 0);
    }
    forall k | 0 <= k < |ch[q]|
      ensures ch[q][k] in ls && SameSibling(L0[ch[q][k]], ls[ch[q][k]])
    {
      ChainAt(L0, q, ch[q], k);
    }
    ChainFrame(L0, ls, q, ch[q]);
  }

  /** init's new chain, x's children reversed before its own, is a chain over registered tasks. */
  lemma ReparentInit(L0: LinkMap, ls: LinkMap, list: seq<TaskId>, ch: map<TaskId, seq<TaskId>>,
                     x: TaskId, ini: TaskId)
    requires FamilyOK(L0, list, ch, x) && FamilyOK(L0, list, ch, ini) && x != ini
    requires forall k :: 0 <= k < |ch[x]| ==> ch[x][k] !in ch[ini]
    requires ChainOK(ls, ini, Rev(ch[x]) + ch[ini])
    ensures FamilyOK(ls, list, Reparent(ch, x, ini), ini)
  {
    var C := ch[x];
    var I0 := ch[ini];
    RevMembers(C);
    RevDistinct(C);
    DistinctAppend(Rev(C), I0);
    forall k | 0 <= k < |Rev(C) + I0|
      ensures (Rev(C) + I0)[k] in list
    {
      if k < |C| {
        assert (Rev(C) + I0)[k] in C;
      } else {
        assert (Rev(C) + I0)[k] == I0[k - |C|];
      }
    }
  }

  /** After the loop every former child of x hangs below init. */
  lemma ReparentChildren(ls: LinkMap, ini: TaskId, C: seq<TaskId>, I0: seq<TaskId>)
    requires ChainOK(ls, ini, Rev(C) + I0)
    ensures forall z :: z in C ==> z in ls && ls[z].parent == Some(ini)
  {
    forall z | z in C
      ensures z in ls && ls[z].parent == Some(ini)
    {
      var j :| 0 <= j < |C| && C[j] == z;
      assert (Rev(C) + I0)[|C| - 1 - j] == z;
    }
  }

  /** After the loop every registered task sits in its parent's (new) chain. */
  lemma ReparentParents(L0: LinkMap, ls: LinkMap, list: seq<TaskId>, ch: map<TaskId, seq<TaskId>>,
                        x: TaskId, ini: TaskId)
    requires GraphOK(L0, list, ch) && x in ch && ini in ch && ini in list && x != ini
    requires forall k :: 0 <= k < |ch[x]| ==> ch[x][k] != ini
    requires ls.Keys == L0.Keys
    requires forall z :: z in ch[x] ==> z in ls && ls[z].parent == Some(ini)
    requires forall z :: z in L0 && z !in ch[x] ==> ls[z].parent == L0[z].parent
    ensures forall c :: c in list ==> ParentOK(ls, list, Reparent(ch, x, ini), c)
  {
    RevMembers(ch[x]);
    forall c | c in list
      ensures ParentOK(ls, list, Reparent(ch, x, ini), c)
    {
      assert ParentOK(L0, list, ch, c);
    }
  }

  /** After the loop: x has no children left and init's chain holds them all, reversed, before its own. */
  lemma ReparentGraph(L0: LinkMap, ls: LinkMap, list: seq<TaskId>, ch: map<TaskId, seq<TaskId>>,
                      x: TaskId, ini: TaskId)
    requires GraphOK(L0, list, ch) && x in list && ini in list
    requires Orphans(L0, x, ini, ch[x], ch[ini]) && Moved(L0, ls, x, ini, ch[x], ch[ini], |ch[x]|)
    ensures GraphOK(ls, list, Reparent(ch, x, ini))
    ensures forall z :: z in ch[x] ==> z in ls && ls[z].parent == Some(ini)
    ensures forall z :: z in L0 && z !in ch[x] ==> ls[z].parent == L0[z].parent
  {
    var C := ch[x];
    var I0 := ch[ini];
    var ch' := Reparent(ch, x, ini);
    assert C[..|C|] == C;
    assert FamilyOK(L0, list, ch, x);
    assert FamilyOK(L0, list, ch, ini);
    forall q | q in list
      ensures FamilyOK(ls, list, ch', q)
    {
      if q == ini {
        ReparentInit(L0, ls, list, ch, x, ini);
      } else if q != x {
        assert FamilyOK(L0, list, ch, q);
        ReparentOther(L0, ls, list, ch, x, ini, q);
      }
    }
    ReparentChildren(ls, ini, C, I0);
    ReparentParents(L0, ls, list, ch, x, ini);
  }

  /** The children of x and of ini are two disjoint chains, as do_exit's loop needs. */
  lemma OrphansOf(ls: LinkMap, list: seq<TaskId>, ch: map<TaskId, seq<TaskId>>, x: TaskId, ini: TaskId)
    requires GraphOK(ls, list, ch) && x in list && ini in list && x != ini
    requires ini in ls && ls[ini].parent != Some(x)
    ensures Orphans(ls, x, ini, ch[x], ch[ini])
  {
    assert FamilyOK(ls, list, ch, x);
    assert FamilyOK(ls, list, ch, ini);
    assert ParentOK(ls, list, ch, x);
    assert ParentOK(ls, list, ch, ini);
    ChainsApart(ls, x, ch[x], ini, ch[ini]);
    forall k | 0 <= k < |ch[x]|
      ensures ch[x][k] != x
    {
      ChainAt(ls, x, ch[x], k);
    }
    forall k | 0 <= k < |ch[ini]|
      ensures ch[ini][k] != ini
    {
      ChainAt(ls, ini, ch[ini], k);
    }
  }

  // ---------------------------------------------------------------------
  // Invariants of the process table
  //
  // An invariant over many tasks is stated per task by a named predicate;
  // its quantifier only fires where a proof names that predicate.

  /** Chain h of hash_list: no task twice, each one a task whose pid hashes to h. */
  ghost predicate BucketOK(ts: map<TaskId, Task>, chain: seq<TaskId>, h: int) {
    Distinct(chain) &&
    forall k :: 0 <= k < |chain| ==> chain[k] in ts && PidHash(ts[chain[k]].pid) == h
  }

  /** The hash table: 1024 chains, each holding tasks whose pid hashes to it. */
  ghost predicate HashOK(ts: map<TaskId, Task>, buckets: seq<seq<TaskId>>) {
    |buckets| == HASH_LIST_SIZE &&
    forall h {:trigger BucketOK(ts, buckets[h], h)} :: 0 <= h < |buckets| ==> BucketOK(ts, buckets[h], h)
  }

  /** A task's pid was handed out already, and the task has an mm. */
  ghost predicate RecordOK(ts: map<TaskId, Task>, nextPid: int, x: TaskId) {
    x in ts && 0 <= ts[x].pid < nextPid && ts[x].mm.Some?
  }

  /** Two different tasks carry different pids. */
  ghost predicate PidsApart(ts: map<TaskId, Task>, x: TaskId, y: TaskId) {
    x in ts && y in ts && (x != y ==> ts[x].pid != ts[y].pid)
  }

  /** Every pid handed out so far is below next_pid, no two tasks share one, and every task has an mm. */
  ghost predicate RecordsOK(ts: map<TaskId, Task>, nextPid: int) {
    (forall x {:trigger RecordOK(ts, nextPid, x)} :: x in ts ==> RecordOK(ts, nextPid, x)) &&
    (forall x, y {:trigger PidsApart(ts, x, y)} :: x in ts && y in ts ==> PidsApart(ts, x, y))
  }

  /** Only the current task may be RUNNING. */
  ghost predicate RunsOnlyAsCurrent(ts: map<TaskId, Task>, current: Option<TaskId>, x: TaskId) {
    x in ts && (ts[x].state == Running ==> current == Some(x))
  }

  /** A registered task other than idle has a parent, and a parent that is a task is alive. */
  ghost predicate ParentAlive(ts: map<TaskId, Task>, ls: LinkMap, idle: Option<TaskId>, x: TaskId) {
    x in ls &&
    (ls[x].parent.None? ==> idle == Some(x)) &&
    (ls[x].parent.Some? && ls[x].parent.value in ts ==> ts[ls[x].parent.value].state != Zombie)
  }

  /**
   * The roles of the distinguished tasks: only `current` may be RUNNING;
   * idle is registered with pid 0, no parent, and never dies; init is a
   * living child of idle; idle is the only registered task without a
   * parent; and no registered task has a dead parent.
   */
  ghost predicate RolesOK(ts: map<TaskId, Task>, ls: LinkMap, list: seq<TaskId>, current: Option<TaskId>,
                          idle: Option<TaskId>, init: Option<TaskId>) {
    (forall x {:trigger RunsOnlyAsCurrent(ts, current, x)} :: x in ts ==> RunsOnlyAsCurrent(ts, current, x)) &&
    (current.Some? ==> idle.Some? && current.value in list) &&
    (idle.Some? ==>
      idle.value in list && idle.value in ts && idle.value in ls &&
      ts[idle.value].pid == 0 && ls[idle.value].parent.None? && ts[idle.value].state != Zombie) &&
    (init.Some? ==>
      idle.Some? && init != idle && init.value in list && init.value in ts && init.value in ls &&
      ls[init.value].parent == idle && ts[init.value].state != Zombie) &&
    (forall x {:trigger ParentAlive(ts, ls, idle, x)} :: x in list ==> ParentAlive(ts, ls, idle, x))
  }

  // ---------------------------------------------------------------------
  // Pure operations on records

  /** alloc_proc: a fresh record, UNINIT, pid -1, no stack, no mm, no frame, empty name. */
  function AllocProc(): (t: Task)
    ensures t.state == Uninit && t.pid == -1 && t.kstack == 0 && t.mm.None? && t.tf.None?
    ensures t.name == "" && t.waitState == 0 && t.flags == 0 && t.context == Context(0, 0)
  {
    Task(-1, "", Uninit, 0, None, None, Context(0, 0), 0, 0, None)
  }

  /**
   * copy_mm: a kernel thread keeps init_mm, any other task shares its
   * parent's mm; either way the child ends up with the parent's mm and
   * nothing else changes.
   */
  function CopyMm(cloneFlags: bv32, cur: Task, proc: Task): (r: Task)
    ensures r == proc.(mm := cur.mm)
  {
    if cur.mm == Some(InitMm) then proc.(mm := Some(InitMm)) else proc.(mm := cur.mm)
  }

  /** wakeup_proc on a record that is not a zombie: RUNNABLE afterwards, whatever it was, and nothing else changes. */
  function Woken(t: Task): (r: Task)
    requires t.state != Zombie
    ensures r == t.(state := Runnable)
  {
    if t.state != Runnable then t.(state := Runnable) else t
  }

  /** state_str: the one- or two-letter code of a state in `ps`. */
  function StateStr(s: TaskState): (r: string)
    ensures 1 <= |r| <= 2
    ensures (r[0] == 'R') <==> (s == Runnable || s == Running)
    ensures (|r| == 2) <==> (s == Running)
    ensures s == Sleeping <==> r == "S"
    ensures s == Zombie <==> r == "Z"
    ensures s == Uninit <==> r == "U"
  {
    match s
    case Uninit => "U"
    case Sleeping => "S"
    case Runnable => "R"
    case Running => "R+"
    case Zombie => "Z"
  }

  /** The first runnable task of proc_list, scanning from the head. */
  function FirstRunnable(ts: map<TaskId, Task>, list: seq<TaskId>): (r: Option<nat>)
    requires InArena(ts, list)
    ensures r.Some? ==> r.value < |list| && ts[list[r.value]].state == Runnable
    ensures forall j :: 0 <= j < |list| && (r.None? || j < r.value) ==> ts[list[j]].state != Runnable
  {
    if |list| == 0 then None
    else if ts[list[0]].state == Runnable then Some(0)
    else
      match FirstRunnable(ts, list[1..])
      case None => None
      case Some(i) => Some(i + 1)
  }

  /** The task schedule picks: the first runnable one, or idle when there is none. */
  function PickNext(ts: map<TaskId, Task>, list: seq<TaskId>, idle: TaskId): TaskId
    requires InArena(ts, list)
  {
    match FirstRunnable(ts, list)
    case Some(i) => list[i]
    case None => idle
  }

  /**
   * schedule is not round-robin: whatever ran before, the runnable task
   * nearest the head of proc_list (the most recently created one) is chosen.
   */
  lemma PickNextIsNewestRunnable(ts: map<TaskId, Task>, list: seq<TaskId>, idle: TaskId, i: nat)
    requires InArena(ts, list) && i < |list| && ts[list[i]].state == Runnable
    requires forall j :: 0 <= j < i ==> ts[list[j]].state != Runnable
    ensures PickNext(ts, list, idle) == list[i]
  {
  }

  /** The idle task is chosen exactly when nothing is runnable, or when it is itself the first runnable task. */
  lemma PickNextIdle(ts: map<TaskId, Task>, list: seq<TaskId>, idle: TaskId)
    requires InArena(ts, list)
    ensures PickNext(ts, list, idle) == idle <==>
      (forall j :: 0 <= j < |list| ==> ts[list[j]].state != Runnable) ||
      (exists i :: 0 <= i < |list| && list[i] == idle && ts[idle].state == Runnable &&
         forall j :: 0 <= j < i ==> ts[list[j]].state != Runnable)
  {
    match FirstRunnable(ts, list)
    case None =>
    case Some(i) =>
      if list[i] == idle {
        assert 0 <= i < |list| && list[i] == idle && ts[idle].state == Runnable;
      }
  }

  /** The first step of schedule: a RUNNING current task goes back to RUNNABLE. */
  function Demote(ts: map<TaskId, Task>, cur: TaskId): (r: map<TaskId, Task>)
    requires cur in ts
    ensures r.Keys == ts.Keys
    ensures r[cur].state == (if ts[cur].state == Running then Runnable else ts[cur].state)
    ensures r[cur].(state := ts[cur].state) == ts[cur]
    ensures forall y :: y in ts && y != cur ==> r[y] == ts[y]
  {
    if ts[cur].state == Running then ts[cur := ts[cur].(state := Runnable)] else ts
  }

  /** Whether some task of `cs` is a zombie: it decides whether init is woken when adopting them. */
  ghost predicate HasZombie(ts: map<TaskId, Task>, cs: seq<TaskId>) {
    exists k :: 0 <= k < |cs| && cs[k] in ts && ts[cs[k]].state == Zombie
  }


  /** The zombie test over the first `n` tasks of `cs`, one task at a time, as the adoption loop makes it. */
  ghost predicate ZombieAmong(ts: map<TaskId, Task>, cs: seq<TaskId>, n: nat)
    requires n <= |cs|
  {
    n > 0 && (ZombieAmong(ts, cs, n - 1) || (cs[n - 1] in ts && ts[cs[n - 1]].state == Zombie))
  }

  /** The step-by-step test over all of `cs` is the zombie test. */
  lemma {:induction false} ZombieAmongAll(ts: map<TaskId, Task>, cs: seq<TaskId>, n: nat)
    requires n <= |cs|
    ensures ZombieAmong(ts, cs, n) <==> HasZombie(ts, cs[..n])
  {
    if n > 0 {
      ZombieAmongAll(ts, cs, n - 1);
      var p := cs[..n];
      if HasZombie(ts, p) && !(cs[n - 1] in ts && ts[cs[n - 1]].state == Zombie) {
        var k :| 0 <= k < |p| && p[k] in ts && ts[p[k]].state == Zombie;
        assert k < n - 1 && cs[..n - 1][k] == p[k];
      }
      if HasZombie(ts, cs[..n - 1]) {
        var k :| 0 <= k < n - 1 && cs[..n - 1][k] in ts && ts[cs[..n - 1][k]].state == Zombie;
        assert p[k] == cs[..n - 1][k];
      }
      if cs[n - 1] in ts && ts[cs[n - 1]].state == Zombie {
        assert p[n - 1] == cs[n - 1];
      }
    }
  }

  /**
   * schedule never picks a task that is neither runnable nor running, unless
   * it is the idle task: so a task that has just exited does not run again.
   */
  lemma ZombieNotPicked(ts: map<TaskId, Task>, list: seq<TaskId>, idle: TaskId, x: TaskId)
    requires InArena(ts, list) && x in ts && ts[x].state == Zombie && x != idle
    ensures Demote(ts, x) == ts && PickNext(ts, list, idle) != x
  {
    match FirstRunnable(ts, list)
    case None =>
    case Some(i) =>
  }
  // ---------------------------------------------------------------------
  // How the operations keep the invariants

  /** Changes that keep every pid and mm keep the hash table and the per-record facts. */
  lemma RecordsFrame(ts0: map<TaskId, Task>, ts: map<TaskId, Task>, buckets: seq<seq<TaskId>>, n0: int, n: int)
    requires HashOK(ts0, buckets) && RecordsOK(ts0, n0) && n0 <= n
    requires ts.Keys == ts0.Keys && forall y :: y in ts0 ==> ts[y].pid == ts0[y].pid && ts[y].mm == ts0[y].mm
    ensures HashOK(ts, buckets) && RecordsOK(ts, n)
  {
    forall h | 0 <= h < |buckets|
      ensures BucketOK(ts, buckets[h], h)
    {
      assert BucketOK(ts0, buckets[h], h);
    }
    forall x | x in ts
      ensures RecordOK(ts, n, x)
    {
      assert RecordOK(ts0, n0, x);
    }
    forall x, y | x in ts && y in ts
      ensures PidsApart(ts, x, y)
    {
      assert PidsApart(ts0, x, y);
    }
  }

  /** A fresh record carrying next_pid, with an mm, keeps the records apart; it is in no hash chain yet. */
  lemma RecordsAdd(ts: map<TaskId, Task>, buckets: seq<seq<TaskId>>, n: int, slot: TaskId, t: Task)
    requires HashOK(ts, buckets) && RecordsOK(ts, n) && slot !in ts && t.pid == n && t.mm.Some? && 0 <= n
    ensures HashOK(ts[slot := t], buckets) && RecordsOK(ts[slot := t], n + 1)
    ensures slot !in buckets[PidHash(n)]
  {
    var ts' := ts[slot := t];
    forall h | 0 <= h < |buckets|
      ensures BucketOK(ts', buckets[h], h) && slot !in buckets[h]
    {
      assert BucketOK(ts, buckets[h], h);
    }
    forall x | x in ts'
      ensures RecordOK(ts', n + 1, x)
    {
      if x != slot {
        assert RecordOK(ts, n, x);
      }
    }
    forall x, y | x in ts' && y in ts'
      ensures PidsApart(ts', x, y)
    {
      if x != slot && y != slot {
        assert PidsApart(ts, x, y);
      } else if x != slot {
        assert RecordOK(ts, n, x);
      } else if y != slot {
        assert RecordOK(ts, n, y);
      }
    }
  }

  /**
   * The states change without anyone dying: the roles stay as long as a
   * RUNNING task is the (possibly new) current one, and a current task
   * that is replaced is not left RUNNING.
   */
  lemma RolesRestate(ts0: map<TaskId, Task>, ts: map<TaskId, Task>, ls: LinkMap, list: seq<TaskId>,
                     cur0: Option<TaskId>, cur: Option<TaskId>, idle: Option<TaskId>, init: Option<TaskId>)
    requires RolesOK(ts0, ls, list, cur0, idle, init)
    requires ts.Keys == ts0.Keys && forall y :: y in ts0 ==> ts[y].pid == ts0[y].pid
    requires forall y :: y in ts0 && ts0[y].state != Zombie ==> ts[y].state != Zombie
    requires forall y :: y in ts && ts[y].state == Running ==> cur == Some(y) || ts0[y].state == Running
    requires cur != cur0 && cur0.Some? ==> cur0.value in ts && ts[cur0.value].state != Running
    requires cur.Some? ==> idle.Some? && cur.value in list
    ensures RolesOK(ts, ls, list, cur, idle, init)
  {
    forall x | x in ts
      ensures RunsOnlyAsCurrent(ts, cur, x)
    {
      assert RunsOnlyAsCurrent(ts0, cur0, x);
    }
    forall x | x in list
      ensures ParentAlive(ts, ls, idle, x)
    {
      assert ParentAlive(ts0, ls, idle, x);
    }
  }

  /** A fresh record that is neither RUNNING nor a zombie, with fresh links, keeps the roles. */
  lemma RolesFresh(ts: map<TaskId, Task>, ls: LinkMap, list: seq<TaskId>, cur: Option<TaskId>,
                   idle: Option<TaskId>, init: Option<TaskId>, slot: TaskId, t: Task, l: Links)
    requires RolesOK(ts, ls, list, cur, idle, init) && slot !in ts && slot !in ls
    requires t.state != Running && t.state != Zombie
    ensures RolesOK(ts[slot := t], ls[slot := l], list, cur, idle, init)
  {
    var ts' := ts[slot := t];
    var ls' := ls[slot := l];
    forall x | x in ts'
      ensures RunsOnlyAsCurrent(ts', cur, x)
    {
      if x != slot {
        assert RunsOnlyAsCurrent(ts, cur, x);
      }
    }
    forall x | x in list
      ensures ParentAlive(ts', ls', idle, x)
    {
      assert ParentAlive(ts, ls, idle, x);
    }
  }

  /** Adding a record under a fresh id keeps the family tree over the registered tasks. */
  lemma GraphFresh(ls: LinkMap, list: seq<TaskId>, ch: map<TaskId, seq<TaskId>>, slot: TaskId, l: Links)
    requires GraphOK(ls, list, ch) && slot !in ls
    ensures GraphOK(ls[slot := l], list, ch)
  {
    var ls' := ls[slot := l];
    forall p | p in list
      ensures FamilyOK(ls', list, ch, p)
    {
      assert FamilyOK(ls, list, ch, p);
      ChainFrame(ls, ls', p, ch[p]);
    }
    forall c | c in list
      ensures ParentOK(ls', list, ch, c)
    {
      assert ParentOK(ls, list, ch, c);
    }
  }

  /** set_links registers a task that has a living parent: the roles stay. */
  lemma LinkRoles(ts: map<TaskId, Task>, ls0: LinkMap, ls: LinkMap, list: seq<TaskId>, x: TaskId, p: TaskId,
                  current: Option<TaskId>, idle: Option<TaskId>, init: Option<TaskId>)
    requires RolesOK(ts, ls0, list, current, idle, init) && x in ls0
    requires ls0[x].parent == Some(p) && p in ts && ts[p].state != Zombie
    requires ls.Keys == ls0.Keys && forall y :: y in ls0 ==> ls[y].parent == ls0[y].parent
    ensures RolesOK(ts, ls, [x] + list, current, idle, init)
  {
    forall y | y in [x] + list
      ensures ParentAlive(ts, ls, idle, y)
    {
      if y != x {
        assert ParentAlive(ts, ls0, idle, y);
      }
    }
  }

  /** remove_links unregisters a task with no role: the roles stay. */
  lemma UnlinkRoles(ts: map<TaskId, Task>, ls0: LinkMap, ls: LinkMap, list: seq<TaskId>, x: TaskId,
                    current: Option<TaskId>, idle: Option<TaskId>, init: Option<TaskId>)
    requires RolesOK(ts, ls0, list, current, idle, init)
    requires current != Some(x) && idle != Some(x) && init != Some(x)
    requires ls.Keys == ls0.Keys && forall y :: y in ls0 ==> ls[y].parent == ls0[y].parent
    ensures RolesOK(ts, ls, Remove(list, x), current, idle, init)
  {
    forall y | y in Remove(list, x)
      ensures ParentAlive(ts, ls, idle, y)
    {
      assert ParentAlive(ts, ls0, idle, y);
    }
  }

  /**
   * do_exit before its final schedule: the exiting task x is a zombie, some
   * tasks were woken, and x's children now have init as their parent.
   */
  lemma ExitRoles(ts0: map<TaskId, Task>, ts: map<TaskId, Task>, L0: LinkMap, ls: LinkMap,
                  list: seq<TaskId>, ch: map<TaskId, seq<TaskId>>, x: TaskId, ini: TaskId, idle: Option<TaskId>)
    requires RolesOK(ts0, L0, list, Some(x), idle, Some(ini)) && GraphOK(L0, list, ch)
    requires x != ini && idle != Some(x) && x in ch && ini !in ch[x] && (idle.Some? ==> idle.value !in ch[x])
    requires ts.Keys == ts0.Keys && ls.Keys == L0.Keys
    requires x in ts && ts[x].state == Zombie && ts[x].pid == ts0[x].pid
    requires forall y :: y in ts0 && y != x ==>
      ts[y].pid == ts0[y].pid && (ts[y].state == ts0[y].state || ts[y].state == Runnable)
    requires forall z :: z in L0 && z !in ch[x] ==> ls[z].parent == L0[z].parent
    requires forall z :: z in ch[x] ==> z in ls && ls[z].parent == Some(ini)
    ensures RolesOK(ts, ls, list, Some(x), idle, Some(ini))
  {
    forall y | y in ts
      ensures RunsOnlyAsCurrent(ts, Some(x), y)
    {
      assert RunsOnlyAsCurrent(ts0, Some(x), y);
    }
    forall c | c in list
      ensures ParentAlive(ts, ls, idle, c)
    {
      assert ParentAlive(ts0, L0, idle, c);
      assert ParentOK(L0, list, ch, c);
      if c !in ch[x] && L0[c].parent == Some(x) {
        assert false;
      }
    }
  }

  /**
   * All invariants of sched.c's globals at once: proc_list holds distinct
   * tasks and nr_process counts them, the hash table, the records, the
   * family tree and the roles.
   */
  ghost predicate TableOK(ts: map<TaskId, Task>, ls: LinkMap, list: seq<TaskId>, buckets: seq<seq<TaskId>>,
                          nr: int, nextPid: int, ch: map<TaskId, seq<TaskId>>,
                          current: Option<TaskId>, idle: Option<TaskId>, init: Option<TaskId>) {
    Distinct(list) && InArena(ts, list) && nr == |list| && ts.Keys == ls.Keys &&
    HashOK(ts, buckets) && 1 <= nextPid && RecordsOK(ts, nextPid) &&
    GraphOK(ls, list, ch) &&
    RolesOK(ts, ls, list, current, idle, init)
  }

  /** wakeup_proc keeps the table. */
  lemma WakeStep(ts: map<TaskId, Task>, ls: LinkMap, list: seq<TaskId>, buckets: seq<seq<TaskId>>,
                 nr: int, nextPid: int, ch: map<TaskId, seq<TaskId>>,
                 current: Option<TaskId>, idle: Option<TaskId>, init: Option<TaskId>, x: TaskId)
    requires TableOK(ts, ls, list, buckets, nr, nextPid, ch, current, idle, init)
    requires x in ts && ts[x].state != Zombie
    ensures TableOK(ts[x := Woken(ts[x])], ls, list, buckets, nr, nextPid, ch, current, idle, init)
  {
    var ts' := ts[x := Woken(ts[x])];
    RecordsFrame(ts, ts', buckets, nextPid, nextPid);
    RolesRestate(ts, ts', ls, list, current, current, idle, init);
  }

  /** The demotion at the start of schedule keeps the table. */
  lemma DemoteStep(ts: map<TaskId, Task>, ls: LinkMap, list: seq<TaskId>, buckets: seq<seq<TaskId>>,
                   nr: int, nextPid: int, ch: map<TaskId, seq<TaskId>>,
                   current: Option<TaskId>, idle: Option<TaskId>, init: Option<TaskId>)
    requires TableOK(ts, ls, list, buckets, nr, nextPid, ch, current, idle, init)
    requires current.Some? && current.value in ts
    ensures TableOK(Demote(ts, current.value), ls, list, buckets, nr, nextPid, ch, current, idle, init)
  {
    var ts' := Demote(ts, current.value);
    RecordsFrame(ts, ts', buckets, nextPid, nextPid);
    RolesRestate(ts, ts', ls, list, current, current, idle, init);
  }

  /** proc_run switching to another living task keeps the table. */
  lemma RunStep(ts: map<TaskId, Task>, ls: LinkMap, list: seq<TaskId>, buckets: seq<seq<TaskId>>,
                nr: int, nextPid: int, ch: map<TaskId, seq<TaskId>>,
                current: Option<TaskId>, idle: Option<TaskId>, init: Option<TaskId>, next: TaskId)
    requires TableOK(ts, ls, list, buckets, nr, nextPid, ch, current, idle, init)
    requires current.Some? && current.value in ts && ts[current.value].state != Running
    requires next in list && next != current.value
    ensures next in ts
    ensures TableOK(ts[next := ts[next].(state := Running)], ls, list, buckets, nr, nextPid, ch, Some(next), idle, init)
  {
    var ts' := ts[next := ts[next].(state := Running)];
    RecordsFrame(ts, ts', buckets, nextPid, nextPid);
    RolesRestate(ts, ts', ls, list, current, Some(next), idle, init);
  }

  /** set_links keeps the table, with x registered as p's youngest child. */
  lemma LinkStep(ts: map<TaskId, Task>, ls0: LinkMap, ls: LinkMap, list: seq<TaskId>, buckets: seq<seq<TaskId>>,
                 nr: int, nextPid: int, ch: map<TaskId, seq<TaskId>>,
                 current: Option<TaskId>, idle: Option<TaskId>, init: Option<TaskId>, x: TaskId, p: TaskId)
    requires TableOK(ts, ls0, list, buckets, nr, nextPid, ch, current, idle, init)
    requires x in ts && x !in list && p in list && ls0[x].parent == Some(p) && ls0[x].cptr.None?
    requires ts[p].state != Zombie && Linked(ls0, ls, x, p)
    ensures TableOK(ts, ls, [x] + list, buckets, nr + 1, nextPid, AddChild(ch, p, x), current, idle, init)
  {
    DistinctCons(x, list);
    LinkGraph(ls0, ls, list, ch, x, p);
    LinkRoles(ts, ls0, ls, list, x, p, current, idle, init);
  }

  /** remove_links keeps the table, with x gone from proc_list and its parent's chain. */
  lemma UnlinkStep(ts: map<TaskId, Task>, ls0: LinkMap, ls: LinkMap, list: seq<TaskId>, buckets: seq<seq<TaskId>>,
                   nr: int, nextPid: int, ch: map<TaskId, seq<TaskId>>,
                   current: Option<TaskId>, idle: Option<TaskId>, init: Option<TaskId>, x: TaskId, p: TaskId)
    requires TableOK(ts, ls0, list, buckets, nr, nextPid, ch, current, idle, init)
    requires x in list && x in ls0 && p in ls0 && ls0[x].parent == Some(p) && ls0[x].cptr.None? && p in ch
    requires current != Some(x) && idle != Some(x) && init != Some(x) && Unlinked(ls0, ls, x, p)
    ensures TableOK(ts, ls, Remove(list, x), buckets, nr - 1, nextPid, DropChild(ch, p, x), current, idle, init)
  {
    UnlinkedParents(ls0, ls, x, p);
    UnlinkGraph(ls0, ls, list, ch, x, p);
    UnlinkRoles(ts, ls0, ls, list, x, current, idle, init);
  }

  /** do_fork's new record and links, once hashed, keep the table (the task is not registered yet). */
  lemma ForkStep(ts: map<TaskId, Task>, ls: LinkMap, list: seq<TaskId>, buckets: seq<seq<TaskId>>, buckets': seq<seq<TaskId>>,
                 nr: int, nextPid: int, ch: map<TaskId, seq<TaskId>>,
                 current: Option<TaskId>, idle: Option<TaskId>, init: Option<TaskId>, slot: TaskId, t: Task, l: Links)
    requires TableOK(ts, ls, list, buckets, nr, nextPid, ch, current, idle, init)
    requires slot !in ts && t.pid == nextPid && t.mm.Some? && t.state != Running && t.state != Zombie
    requires HashOK(ts[slot := t], buckets')
    ensures TableOK(ts[slot := t], ls[slot := l], list, buckets', nr, nextPid + 1, ch, current, idle, init)
  {
    RecordsAdd(ts, buckets, nextPid, slot, t);
    RolesFresh(ts, ls, list, current, idle, init, slot, t, l);
    GraphFresh(ls, list, ch, slot, l);
  }

  /** The end of do_exit's loop: x a zombie, its children moved to init; the table holds again. */
  lemma ExitStep(T0: map<TaskId, Task>, ts: map<TaskId, Task>, L0: LinkMap, ls: LinkMap, list: seq<TaskId>,
                 buckets: seq<seq<TaskId>>, nr: int, nextPid: int, ch: map<TaskId, seq<TaskId>>,
                 x: TaskId, idle: Option<TaskId>, ini: TaskId)
    requires x in ch && ini in ch && x in L0
    requires TableOK(T0, L0, list, buckets, nr, nextPid, ch, Some(x), idle, Some(ini))
    requires x != ini && idle != Some(x)
    requires Orphans(L0, x, ini, ch[x], ch[ini]) && Moved(L0, ls, x, ini, ch[x], ch[ini], |ch[x]|)
    requires ts.Keys == T0.Keys && x in ts && ts[x].state == Zombie && ts[x].pid == T0[x].pid && ts[x].mm == T0[x].mm
    requires forall y :: y in T0 && y != x ==>
      ts[y].pid == T0[y].pid && ts[y].mm == T0[y].mm && (ts[y].state == T0[y].state || ts[y].state == Runnable)
    ensures TableOK(ts, ls, list, buckets, nr, nextPid, Reparent(ch, x, ini), Some(x), idle, Some(ini))
    ensures forall z :: z in ch[x] ==> z in ls && ls[z].parent == Some(ini)
  {
    ReparentGraph(L0, ls, list, ch, x, ini);
    RecordsFrame(T0, ts, buckets, nextPid, nextPid);
    if idle.Some? {
      forall k | 0 <= k < |ch[x]|
        ensures ch[x][k] != idle.value
      {
        ChainAt(L0, x, ch[x], k);
      }
    }
    ExitRoles(T0, ts, L0, ls, list, ch, x, ini, idle);
  }

  /** init_proc_init naming the forked child init and recording it keeps the table. */
  lemma InitStep(ts: map<TaskId, Task>, ls: LinkMap, list: seq<TaskId>, buckets: seq<seq<TaskId>>,
                 nr: int, nextPid: int, ch: map<TaskId, seq<TaskId>>,
                 current: Option<TaskId>, idle: Option<TaskId>, slot: TaskId)
    requires TableOK(ts, ls, list, buckets, nr, nextPid, ch, current, idle, None)
    requires idle.Some? && slot != idle.value && slot in list && ls[slot].parent == idle && ts[slot].state != Zombie
    ensures TableOK(ts[slot := ts[slot].(name := "init")], ls, list, buckets, nr, nextPid, ch, current, idle, Some(slot))
  {
    var ts' := ts[slot := ts[slot].(name := "init")];
    RecordsFrame(ts, ts', buckets, nextPid, nextPid);
    RolesRestate(ts, ts', ls, list, current, current, idle, None);
  }

  /** idle_init on empty lists yields a table holding only idle. */
  lemma IdleStep(ts: map<TaskId, Task>, ls: LinkMap, list: seq<TaskId>, buckets: seq<seq<TaskId>>, nr: int,
                 ch: map<TaskId, seq<TaskId>>, slot: TaskId, t: Task)
    requires ts == map[] && ls == map[] && list == [] && nr == 0 && ch == map[]
    requires |buckets| == HASH_LIST_SIZE && forall h :: 0 <= h < |buckets| ==> buckets[h] == []
    requires t.pid == 0 && t.mm.Some? && t.state == Runnable
    ensures TableOK(ts[slot := t], ls[slot := NO_LINKS], [slot] + list,
                    buckets[PidHash(t.pid) := [slot] + buckets[PidHash(t.pid)]], nr + 1, 1,
                    ch[slot := []], Some(slot), Some(slot), None)
  {
    var ts' := ts[slot := t];
    var ls' := ls[slot := NO_LINKS];
    var ch' := ch[slot := []];
    var b := buckets[PidHash(t.pid) := [slot] + buckets[PidHash(t.pid)]];
    assert [slot] + list == [slot];
    forall h | 0 <= h < |b|
      ensures BucketOK(ts', b[h], h)
    {
    }
    forall x | x in ts'
      ensures RecordOK(ts', 1, x)
    {
    }
    forall x, y | x in ts' && y in ts'
      ensures PidsApart(ts', x, y)
    {
    }
    forall x | x in ts'
      ensures RunsOnlyAsCurrent(ts', Some(slot), x)
    {
    }
    forall x | x in [slot]
      ensures ParentAlive(ts', ls', Some(slot), x)
    {
    }
    assert FamilyOK(ls', [slot], ch', slot);
    assert ParentOK(ls', [slot], ch', slot);
  }


  /** hash_proc keeps the hash table: a task in no chain joins the front of the chain its pid hashes to. */
  lemma HashAdd(ts: map<TaskId, Task>, buckets: seq<seq<TaskId>>, x: TaskId)
    requires HashOK(ts, buckets) && x in ts && x !in buckets[PidHash(ts[x].pid)]
    ensures HashOK(ts, buckets[PidHash(ts[x].pid) := [x] + buckets[PidHash(ts[x].pid)]])
  {
    var h := PidHash(ts[x].pid);
    var b := buckets[h := [x] + buckets[h]];
    assert BucketOK(ts, buckets[h], h);
    DistinctCons(x, buckets[h]);
    forall g | 0 <= g < |b|
      ensures BucketOK(ts, b[g], g)
    {
      if g != h {
        assert BucketOK(ts, buckets[g], g);
      }
    }
  }

  /** unhash_proc keeps the hash table, and afterwards the task is in no chain at all. */
  lemma HashDrop(ts: map<TaskId, Task>, buckets: seq<seq<TaskId>>, x: TaskId)
    requires HashOK(ts, buckets) && x in ts
    ensures var h := PidHash(ts[x].pid); var b := buckets[h := Remove(buckets[h], x)];
      HashOK(ts, b) && forall g :: 0 <= g < |b| ==> x !in b[g]
  {
    var h := PidHash(ts[x].pid);
    var b := buckets[h := Remove(buckets[h], x)];
    forall g | 0 <= g < |b|
      ensures BucketOK(ts, b[g], g) && x !in b[g]
    {
      assert BucketOK(ts, buckets[g], g);
      if g == h {
        forall k | 0 <= k < |b[g]|
          ensures b[g][k] in ts && PidHash(ts[b[g][k]].pid) == g
        {
          assert b[g][k] in buckets[g];
        }
      }
    }
  }

  /** What set_links needs of a registered parent: its youngest child, if any, is another registered task. */
  lemma LinkReady(ts: map<TaskId, Task>, ls: LinkMap, list: seq<TaskId>, buckets: seq<seq<TaskId>>,
                  nr: int, nextPid: int, ch: map<TaskId, seq<TaskId>>,
                  current: Option<TaskId>, idle: Option<TaskId>, init: Option<TaskId>, p: TaskId)
    requires TableOK(ts, ls, list, buckets, nr, nextPid, ch, current, idle, init) && p in list
    ensures p in ls && p in ts && p in ch && RecordOK(ts, nextPid, p)
    ensures ls[p].cptr.Some? ==> ls[p].cptr.value in list && ls[p].cptr.value in ls && ls[p].cptr.value != p
  {
    assert FamilyOK(ls, list, ch, p);
    assert ParentOK(ls, list, ch, p);
    assert RecordOK(ts, nextPid, p);
    if ls[p].cptr.Some? {
      ChainAt(ls, p, ch[p], 0);
    }
  }

  /**
   * What remove_links needs of a zombie that is not current: it has a
   * parent, whose chain holds it between two other registered tasks, and
   * it is neither idle nor init.
   */
  lemma UnlinkReady(ts: map<TaskId, Task>, ls: LinkMap, list: seq<TaskId>, buckets: seq<seq<TaskId>>,
                    nr: int, nextPid: int, ch: map<TaskId, seq<TaskId>>,
                    current: Option<TaskId>, idle: Option<TaskId>, init: Option<TaskId>, x: TaskId)
    requires TableOK(ts, ls, list, buckets, nr, nextPid, ch, current, idle, init)
    requires x in list && ts[x].state == Zombie
    ensures x in ls && ls[x].parent.Some? && idle != Some(x) && init != Some(x)
    ensures var p := ls[x].parent.value; var o := ls[x].optr; var y := ls[x].yptr;
      p in ls && p in ch && p != x &&
      (o.Some? ==> o.value in ls && o.value != p && o.value != x) &&
      (y.Some? ==> y.value in ls && y.value != p && y.value != x && y != o)
  {
    assert ParentOK(ls, list, ch, x);
    assert ParentAlive(ts, ls, idle, x);
    var p := ls[x].parent.value;
    assert FamilyOK(ls, list, ch, p);
    assert ParentOK(ls, list, ch, p);
    NotOwnChild(ls, p, ch[p]);
    var k :| 0 <= k < |ch[p]| && ch[p][k] == x;
    ChainAt(ls, p, ch[p], k);
    if k > 0 {
      ChainAt(ls, p, ch[p], k - 1);
    }
    if k + 1 < |ch[p]| {
      ChainAt(ls, p, ch[p], k + 1);
    }
  }

  /** What do_exit needs of the current task: a parent it has is another task, alive. */
  lemma ExitReady(ts: map<TaskId, Task>, ls: LinkMap, list: seq<TaskId>, buckets: seq<seq<TaskId>>,
                  nr: int, nextPid: int, ch: map<TaskId, seq<TaskId>>,
                  x: TaskId, idle: Option<TaskId>, ini: TaskId)
    requires TableOK(ts, ls, list, buckets, nr, nextPid, ch, Some(x), idle, Some(ini))
    ensures x in list && x in ts && x in ls && x in ch && ini in list && ini in ts && ini in ch
    ensures ts[ini].state != Zombie
    ensures ls[x].parent.Some? ==>
      ls[x].parent.value in ts && ls[x].parent.value != x && ts[ls[x].parent.value].state != Zombie
  {
    assert ParentOK(ls, list, ch, x);
    assert ParentAlive(ts, ls, idle, x);
  }

  /**
   * do_fork as a whole keeps the table: the woken child t of the current
   * task, hashed, linked by set_links as cur's youngest child.
   */
  lemma ForkAll(ts: map<TaskId, Task>, ls: LinkMap, list: seq<TaskId>, buckets: seq<seq<TaskId>>,
                nr: int, nextPid: int, ch: map<TaskId, seq<TaskId>>,
                current: Option<TaskId>, idle: Option<TaskId>, init: Option<TaskId>, slot: TaskId, t: Task,
                ts': map<TaskId, Task>, ls': LinkMap, list': seq<TaskId>, buckets': seq<seq<TaskId>>,
                nr': int, nextPid': int, ch': map<TaskId, seq<TaskId>>,
                current': Option<TaskId>, idle': Option<TaskId>, init': Option<TaskId>)
    requires TableOK(ts, ls, list, buckets, nr, nextPid, ch, current, idle, init)
    requires current.Some? && current.value in ts && current.value in ls && ts[current.value].state != Zombie
    requires slot !in ts && t.pid == nextPid && t.mm.Some? && t.state != Running && t.state != Zombie
    requires Linked(ls[slot := NO_LINKS.(parent := current)], ls', slot, current.value)
    requires ts' == ts[slot := t][slot := Woken(t)] && list' == [slot] + list
    requires buckets' == buckets[PidHash(nextPid) := [slot] + buckets[PidHash(nextPid)]]
    requires nr' == nr + 1 && nextPid' == nextPid + 1 && ch' == AddChild(ch, current.value, slot)
    requires current' == current && idle' == idle && init' == init
    ensures TableOK(ts', ls', list', buckets', nr', nextPid', ch', current', idle', init')
    ensures ts' == ts[slot := Woken(t)]
  {
    var cur := current.value;
    var ts1 := ts[slot := t];
    var ls1 := ls[slot := NO_LINKS.(parent := Some(cur))];
    var b1 := buckets[PidHash(nextPid) := [slot] + buckets[PidHash(nextPid)]];
    LinkReady(ts, ls, list, buckets, nr, nextPid, ch, Some(cur), idle, init, cur);
    RecordsAdd(ts, buckets, nextPid, slot, t);
    HashAdd(ts1, buckets, slot);
    ForkStep(ts, ls, list, buckets, b1, nr, nextPid, ch, Some(cur), idle, init, slot, t, ls1[slot]);
    LinkStep(ts1, ls1, ls', list, b1, nr, nextPid + 1, ch, Some(cur), idle, init, slot, cur);
    WakeStep(ts1, ls', [slot] + list, b1, nr + 1, nextPid + 1, AddChild(ch, cur, slot), Some(cur), idle, init, slot);
  }

  /** The preconditions of Adopt. */
  ghost predicate CanAdopt(ls: LinkMap, x: TaskId, ini: TaskId) {
    x != ini && x in ls && ini in ls && ls[x].cptr.Some? &&
    ls[x].cptr.value in ls && ls[x].cptr.value != x && ls[x].cptr.value != ini &&
    (ls[ini].cptr.Some? ==> ls[ini].cptr.value in ls && ls[ini].cptr != ls[x].cptr)
  }

  /** The link map after n rounds of do_exit's loop (a round that cannot run leaves it as it is). */
  ghost function Rounds(L0: LinkMap, x: TaskId, ini: TaskId, n: nat): LinkMap {
    if n == 0 then L0
    else
      var ls := Rounds(L0, x, ini, n - 1);
      if CanAdopt(ls, x, ini) then Adopt(ls, x, ini) else ls
  }

  lemma {:induction false} RoundsMoved(L0: LinkMap, x: TaskId, ini: TaskId, C: seq<TaskId>, I0: seq<TaskId>, n: nat)
    requires Orphans(L0, x, ini, C, I0) && n <= |C|
    ensures Moved(L0, Rounds(L0, x, ini, n), x, ini, C, I0, n)
  {
    if n == 0 {
      MovedStart(L0, x, ini, C, I0);
    } else {
      RoundsMoved(L0, x, ini, C, I0, n - 1);
      AdoptStep(L0, Rounds(L0, x, ini, n - 1), x, ini, C, I0, n - 1);
    }
  }

  /** Before each round of do_exit's loop: the loop runs exactly |C| rounds, and each may adopt. */
  lemma RoundReady(L0: LinkMap, x: TaskId, ini: TaskId, C: seq<TaskId>, I0: seq<TaskId>, n: nat)
    requires Orphans(L0, x, ini, C, I0) && n <= |C|
    ensures var ls := Rounds(L0, x, ini, n);
      ls.Keys == L0.Keys && x in ls && (ls[x].cptr.Some? <==> n < |C|) &&
      (n < |C| ==> CanAdopt(ls, x, ini) && ls[x].cptr == Some(C[n]) && C[n] != ini)
  {
    RoundsMoved(L0, x, ini, C, I0, n);
    if n < |C| {
      AdoptStep(L0, Rounds(L0, x, ini, n), x, ini, C, I0, n);
    }
  }

  /** A round that can adopt is the next of the rounds. */
  lemma RoundStep(L0: LinkMap, x: TaskId, ini: TaskId, n: nat)
    requires CanAdopt(Rounds(L0, x, ini, n), x, ini)
    ensures Rounds(L0, x, ini, n + 1) == Adopt(Rounds(L0, x, ini, n), x, ini)
  {
  }

  /** init's record after do_exit's loop has handed it the first n children of C. */
  ghost function InitAfter(T1: map<TaskId, Task>, C: seq<TaskId>, ini: TaskId, n: nat): Task
    requires ini in T1 && T1[ini].state != Zombie && n <= |C|
  {
    if ZombieAmong(T1, C, n) && T1[ini].waitState != 0 then Woken(T1[ini]) else T1[ini]
  }

  /** One round of the wake test in do_exit's loop. */
  lemma WakeRound(T1: map<TaskId, Task>, C: seq<TaskId>, ini: TaskId, i: nat, ts: map<TaskId, Task>, ts': map<TaskId, Task>)
    requires ini in T1 && T1[ini].state != Zombie && i < |C| && C[i] in T1 && C[i] != ini
    requires ts == T1[ini := InitAfter(T1, C, ini, i)]
    requires ts' == if ts[C[i]].state == Zombie && ts[ini].waitState != 0 then ts[ini := Woken(ts[ini])] else ts
    ensures ts' == T1[ini := InitAfter(T1, C, ini, i + 1)]
  {
  }

  /** Zombie status of the tasks of cs is the same in both tables. */
  lemma ZombieSame(ts: map<TaskId, Task>, ts': map<TaskId, Task>, cs: seq<TaskId>)
    requires forall k :: 0 <= k < |cs| ==> (cs[k] in ts <==> cs[k] in ts')
    requires forall k :: 0 <= k < |cs| && cs[k] in ts ==> (ts[cs[k]].state == Zombie <==> ts'[cs[k]].state == Zombie)
    ensures HasZombie(ts, cs) <==> HasZombie(ts', cs)
  {
    if HasZombie(ts, cs) {
      var k :| 0 <= k < |cs| && cs[k] in ts && ts[cs[k]].state == Zombie;
      assert cs[k] in ts' && ts'[cs[k]].state == Zombie;
    }
    if HasZombie(ts', cs) {
      var k :| 0 <= k < |cs| && cs[k] in ts' && ts'[cs[k]].state == Zombie;
      assert cs[k] in ts && ts[cs[k]].state == Zombie;
    }
  }

  /**
   * The task records after do_exit's stores: x a zombie with the exit code,
   * its parent par woken if it waits, and init woken if one of x's children
   * C is a zombie and init waits.
   */
  ghost function ExitTasks(T0: map<TaskId, Task>, x: TaskId, par: Option<TaskId>, ini: TaskId, C: seq<TaskId>, code: int): (r: map<TaskId, Task>)
    requires x in T0 && ini in T0 && ini != x && T0[ini].state != Zombie
    requires par.Some? ==> par.value in T0 && par.value != x && T0[par.value].state != Zombie
    requires forall k :: 0 <= k < |C| ==> C[k] != x
    ensures r.Keys == T0.Keys
    ensures r[x] == T0[x].(state := Zombie, exitCode := Some(code))
    ensures forall y :: y in T0 && y != x ==> r[y] == T0[y] || r[y] == T0[y].(state := Runnable)
    ensures forall y :: y in T0 && y != x && y != ini && Some(y) != par ==> r[y] == T0[y]
    ensures par.Some? && T0[par.value].waitState != 0 ==> r[par.value].state == Runnable
    ensures HasZombie(T0, C) && T0[ini].waitState != 0 ==> r[ini].state == Runnable
    ensures Some(ini) != par ==>
      (r[ini] != T0[ini] <==> HasZombie(T0, C) && T0[ini].waitState != 0 && T0[ini].state != Runnable)
  {
    var t1 := T0[x := T0[x].(state := Zombie, exitCode := Some(code))];
    var t2 := if par.Some? && t1[par.value].waitState != 0 then t1[par.value := Woken(t1[par.value])] else t1;
    ZombieSame(T0, t2, C);
    t2[ini := if HasZombie(t2, C) && t2[ini].waitState != 0 then Woken(t2[ini]) else t2[ini]]
  }

  /** The task records after do_exit's stores meet what the table lemma for do_exit asks of them. */
  lemma ExitTasksKeep(T0: map<TaskId, Task>, x: TaskId, par: Option<TaskId>, ini: TaskId, C: seq<TaskId>, code: int)
    requires x in T0 && ini in T0 && ini != x && T0[ini].state != Zombie
    requires par.Some? ==> par.value in T0 && par.value != x && T0[par.value].state != Zombie
    requires forall k :: 0 <= k < |C| ==> C[k] != x
    ensures var ts := ExitTasks(T0, x, par, ini, C, code);
      ts.Keys == T0.Keys && x in ts && ts[x].state == Zombie && ts[x].pid == T0[x].pid && ts[x].mm == T0[x].mm &&
      forall y :: y in T0 && y != x ==>
        ts[y].pid == T0[y].pid && ts[y].mm == T0[y].mm && (ts[y].state == T0[y].state || ts[y].state == Runnable)
  {
    var ts := ExitTasks(T0, x, par, ini, C, code);
    forall y | y in T0 && y != x
      ensures ts[y].pid == T0[y].pid && ts[y].mm == T0[y].mm && (ts[y].state == T0[y].state || ts[y].state == Runnable)
    {
      assert ts[y] == T0[y] || ts[y] == T0[y].(state := Runnable);
    }
  }

  /**
   * do_exit's stores as a whole keep the table: with x a zombie and its
   * children handed to init, the relation is reparented.
   */
  lemma ExitWhole(T0: map<TaskId, Task>, L0: LinkMap, list: seq<TaskId>, buckets: seq<seq<TaskId>>,
                  nr: int, nextPid: int, ch: map<TaskId, seq<TaskId>>, x: TaskId, idle: Option<TaskId>, ini: TaskId,
                  code: int)
    requires TableOK(T0, L0, list, buckets, nr, nextPid, ch, Some(x), idle, Some(ini))
    requires x != ini && idle != Some(x) && x in ch && ini in ch && x in L0 && x in T0 && ini in T0
    requires T0[ini].state != Zombie
    requires L0[x].parent.Some? ==> L0[x].parent.value in T0 && L0[x].parent.value != x && T0[L0[x].parent.value].state != Zombie
    requires Orphans(L0, x, ini, ch[x], ch[ini])
    ensures var ts := ExitTasks(T0, x, L0[x].parent, ini, ch[x], code); var ls := Rounds(L0, x, ini, |ch[x]|);
      TableOK(ts, ls, list, buckets, nr, nextPid, Reparent(ch, x, ini), Some(x), idle, Some(ini)) &&
      (forall z :: z in ch[x] ==> z in ls && ls[z].parent == Some(ini)) &&
      x in ls && ls[x].cptr.None?
  {
    var ls := Rounds(L0, x, ini, |ch[x]|);
    RoundsMoved(L0, x, ini, ch[x], ch[ini], |ch[x]|);
    RoundReady(L0, x, ini, ch[x], ch[ini], |ch[x]|);
    ExitTasksKeep(T0, x, L0[x].parent, ini, ch[x], code);
    ExitStep(T0, ExitTasks(T0, x, L0[x].parent, ini, ch[x], code), L0, ls, list, buckets, nr, nextPid, ch, x, idle, ini);
  }

  /** ExitWhole restated over the fields' new values, for do_exit's table step. */
  lemma ExitAll(T0: map<TaskId, Task>, L0: LinkMap, list: seq<TaskId>, buckets: seq<seq<TaskId>>,
                nr: int, nextPid: int, ch: map<TaskId, seq<TaskId>>, x: TaskId, idle: Option<TaskId>, ini: TaskId,
                code: int, ts': map<TaskId, Task>, ls': LinkMap, list': seq<TaskId>, buckets': seq<seq<TaskId>>,
                nr': int, nextPid': int, ch': map<TaskId, seq<TaskId>>,
                current': Option<TaskId>, idle': Option<TaskId>, init': Option<TaskId>)
    requires TableOK(T0, L0, list, buckets, nr, nextPid, ch, Some(x), idle, Some(ini))
    requires x != ini && idle != Some(x) && x in ch && ini in ch && x in L0 && x in T0 && ini in T0
    requires T0[ini].state != Zombie
    requires L0[x].parent.Some? ==> L0[x].parent.value in T0 && L0[x].parent.value != x && T0[L0[x].parent.value].state != Zombie
    requires Orphans(L0, x, ini, ch[x], ch[ini])
    requires ls' == Rounds(L0, x, ini, |ch[x]|)
    requires ts' == ExitTasks(T0, x, L0[x].parent, ini, ch[x], code)
    requires ch' == Reparent(ch, x, ini)
    requires list' == list && buckets' == buckets && nr' == nr && nextPid' == nextPid
    requires current' == Some(x) && idle' == idle && init' == Some(ini)
    ensures TableOK(ts', ls', list', buckets', nr', nextPid', ch', current', idle', init')
    ensures forall z :: z in ch[x] ==> z in ls' && ls'[z].parent == init'
    ensures x in ls' && ls'[x].cptr.None?
  {
    ExitWhole(T0, L0, list, buckets, nr, nextPid, ch, x, idle, ini, code);
  }

  /** What do_exit finds when it starts: x and a living init are distinct tasks, x's parent is another living task, and x is not its own child. */
  ghost predicate ExitPre(T0: map<TaskId, Task>, L0: LinkMap, ch0: map<TaskId, seq<TaskId>>, x: TaskId, ini: TaskId)
  {
    x in T0 && ini in T0 && ini != x && T0[ini].state != Zombie && x in L0 && x in ch0 && ini in ch0 &&
    (L0[x].parent.Some? ==> L0[x].parent.value in T0 && L0[x].parent.value != x && T0[L0[x].parent.value].state != Zombie) &&
    (forall k :: 0 <= k < |ch0[x]| ==> ch0[x][k] != x)
  }

  /**
   * do_exit's effect before schedule: task x a zombie with the exit code,
   * its parent and init woken as ExitTasks says, its children handed to init.
   */
  ghost predicate Exited(T0: map<TaskId, Task>, L0: LinkMap, ch0: map<TaskId, seq<TaskId>>, x: TaskId, ini: TaskId, code: int,
                         ts: map<TaskId, Task>, ls: LinkMap, ch: map<TaskId, seq<TaskId>>)
  {
    ExitPre(T0, L0, ch0, x, ini) &&
    ts == ExitTasks(T0, x, L0[x].parent, ini, ch0[x], code) &&
    ls == Rounds(L0, x, ini, |ch0[x]|) && ch == Reparent(ch0, x, ini)
  }
}
