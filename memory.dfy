/**
 * memset and memcpy of the kernel (kern/include/memory.h).
 *
 * Memory is one byte array addressed by index; a pointer is an index into
 * it.  Both routines walk forward one byte at a time and return the
 * destination pointer.  memcpy does nothing about overlap: it is specified
 * by the front-to-back copy `Copied`, and what that copy means for disjoint
 * regions is proved separately.
 */
module Memory {
  type Byte = bv8

  /** The memory after the first i single-byte copies of a front-to-back copy from src to dst. */
  function Copied(m: seq<Byte>, dst: nat, src: nat, i: nat): (r: seq<Byte>)
    requires dst + i <= |m| && src + i <= |m|
    ensures |r| == |m|
    ensures forall k :: 0 <= k < |m| && !(dst <= k < dst + i) ==> r[k] == m[k]
  {
    if i == 0 then m
    else
      var p := Copied(m, dst, src, i - 1);
      p[dst + i - 1 := p[src + i - 1]]
  }

  /**
   * For regions that do not overlap, the front-to-back copy puts the
   * original source bytes into the destination.
   */
  lemma {:induction false} CopiedDisjoint(m: seq<Byte>, dst: nat, src: nat, i: nat)
    requires dst + i <= |m| && src + i <= |m|
    requires dst + i <= src || src + i <= dst
    ensures forall k :: dst <= k < dst + i ==> Copied(m, dst, src, i)[k] == m[k - dst + src]
  {
    if i > 0 {
      CopiedDisjoint(m, dst, src, i - 1);
      var p := Copied(m, dst, src, i - 1);
      assert p[src + i - 1] == m[src + i - 1];
    }
  }

  /**
   * memset(s, c, n): bytes s .. s+n-1 become c, every other byte is kept,
   * and s is returned.
   */
  method Memset(mem: array<Byte>, s: nat, c: Byte, n: nat) returns (r: nat)
    requires s + n <= mem.Length
    modifies mem
    ensures r == s
    ensures forall k :: s <= k < s + n ==> mem[k] == c
    ensures forall k :: 0 <= k < mem.Length && !(s <= k < s + n) ==> mem[k] == old(mem[k])
  {
    var p := s;
    var left: nat := n;
    while left > 0
      invariant left <= n && p == s + (n - left)
      invariant forall k :: s <= k < p ==> mem[k] == c
      invariant forall k :: 0 <= k < mem.Length && !(s <= k < p) ==> mem[k] == old(mem[k])
    {
      mem[p] := c;
      p := p + 1;
      left := left - 1;
    }
    return s;
  }

  /**
   * memcpy(dst, src, n): the n single-byte copies are done front to back,
   * and dst is returned.
   */
  method Memcpy(mem: array<Byte>, dst: nat, src: nat, n: nat) returns (r: nat)
    requires dst + n <= mem.Length && src + n <= mem.Length
    modifies mem
    ensures r == dst
    ensures mem[..] == Copied(old(mem[..]), dst, src, n)
  {
    var d := dst;
    var s := src;
    var left: nat := n;
    while left > 0
      invariant left <= n && d == dst + (n - left) && s == src + (n - left)
      invariant mem[..] == Copied(old(mem[..]), dst, src, n - left)
    {
      mem[d] := mem[s];
      d := d + 1;
      s := s + 1;
      left := left - 1;
    }
    return dst;
  }

  /**
   * memcpy between regions that do not overlap: the destination holds the
   * original source bytes and nothing else changes.
   */
  method MemcpyDisjoint(mem: array<Byte>, dst: nat, src: nat, n: nat) returns (r: nat)
    requires dst + n <= mem.Length && src + n <= mem.Length
    requires dst + n <= src || src + n <= dst
    modifies mem
    ensures r == dst
    ensures forall k :: dst <= k < dst + n ==> mem[k] == old(mem[k - dst + src])
    ensures forall k :: 0 <= k < mem.Length && !(dst <= k < dst + n) ==> mem[k] == old(mem[k])
  {
    ghost var m0 := mem[..];
    r := Memcpy(mem, dst, src, n);
    CopiedDisjoint(m0, dst, src, n);
    forall k | 0 <= k < mem.Length
      ensures mem[k] == mem[..][k] && m0[k] == old(mem[k])
    {
    }
  }
}
