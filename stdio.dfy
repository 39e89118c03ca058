/**
 * The kernel's small cprintf (kern/cons/stdio.c).
 *
 * Output is the sequence of ints handed to cons_putc.  The format is walked
 * with a two-state machine: in the plain state every character but '%' is
 * copied and '%' switches to the conversion state; there 'x' and 'd' each
 * print the next argument (base 16 or 10) and switch back, and any other
 * character is dropped.  Walking stops at the first NUL.  Arguments are the
 * unsigned 32-bit values va_arg fetches; print_num stores each in an int,
 * so one from 2^31 up is printed as a negative number.
 */
module Stdio {
  newtype U32 = x: int | 0 <= x < 0x1_0000_0000

  /** The character print_digit emits for digit d: '0'..'9', then 'A' onwards. */
  function DigitChar(d: int): int {
    if d < 10 then '0' as int + d else 'A' as int + d - 10
  }

  /**
   * print_digit(num, base): the digits above the last one first, then the
   * last one.  For a negative num it prints a single character.
   */
  function PrintDigit(num: int, base: int): (r: seq<int>)
    requires base >= 2
    ensures |r| >= 1
    decreases if num < 0 then 0 else num
  {
    if num >= base then PrintDigit(num / base, base) + [DigitChar(num % base)]
    else [DigitChar(num)]
  }

  /** Whether ch is the character of a digit below base. */
  predicate IsDigit(ch: int, base: int) {
    ('0' as int <= ch <= '9' as int && ch - '0' as int < base) ||
    ('A' as int <= ch && ch - 'A' as int + 10 < base)
  }

  /** The digit a digit character stands for. */
  function DigitValue(ch: int): int {
    if ch <= '9' as int then ch - '0' as int else ch - 'A' as int + 10
  }

  /** The number a string of digits denotes, most significant first. */
  function Value(s: seq<int>, base: int): int {
    if |s| == 0 then 0 else Value(s[..|s| - 1], base) * base + DigitValue(s[|s| - 1])
  }

  /** For num >= 0, print_digit emits digits of the base only. */
  lemma {:induction false} PrintDigitDigits(num: nat, base: int)
    requires base == 10 || base == 16
    ensures forall i :: 0 <= i < |PrintDigit(num, base)| ==> IsDigit(PrintDigit(num, base)[i], base)
    decreases num
  {
    if num >= base {
      PrintDigitDigits(num / base, base);
      assert IsDigit(DigitChar(num % base), base);
    }
  }

  /** A digit's character reads back as the digit. */
  lemma DigitRoundTrip(d: int)
    requires 0 <= d < 36
    ensures DigitValue(DigitChar(d)) == d
  {
  }

  /** print_digit above the last digit: the digits of num / base, then the last digit. */
  lemma PrintDigitStep(num: nat, base: int)
    requires (base == 10 || base == 16) && num >= base
    ensures PrintDigit(num, base) == PrintDigit(num / base, base) + [DigitChar(num % base)]
  {
  }

  /** For num >= 0, print_digit's digits read back as num. */
  lemma {:induction false} PrintDigitReads(num: nat, base: int)
    requires base == 10 || base == 16
    ensures Value(PrintDigit(num, base), base) == num
    decreases num
  {
    var r := PrintDigit(num, base);
    if num >= base {
      var q, d := num / base, num % base;
      var qs := PrintDigit(q, base);
      PrintDigitStep(num, base);
      PrintDigitReads(q, base);
      DigitRoundTrip(d);
      assert r[..|r| - 1] == qs && r[|r| - 1] == DigitChar(d);
      assert Value(r, base) == Value(qs, base) * base + d;
      assert Value(qs, base) == q;
      assert num == q * base + d;
    } else {
      DigitRoundTrip(num);
      assert r == [DigitChar(num)];
      assert r[..0] == [];
    }
  }

  /** For num >= 0, print_digit writes no leading zero: it starts with '0' only for 0 itself. */
  lemma {:induction false} PrintDigitLeading(num: nat, base: int)
    requires base == 10 || base == 16
    ensures PrintDigit(num, base)[0] == '0' as int <==> num == 0
    decreases num
  {
    if num >= base {
      PrintDigitStep(num, base);
      PrintDigitLeading(num / base, base);
    }
  }

  /** print_num as written: the unsigned argument lands in an int, so values from 2^31 up turn negative. */
  function PrintNumAsWritten(u: U32, base: int): seq<int>
    requires base >= 2
  {
    PrintDigit(if u >= 0x8000_0000 then u as int - 0x1_0000_0000 else u as int, base)
  }

  /** print_num with the argument kept unsigned. */
  function PrintNum(u: U32, base: int): (r: seq<int>)
    requires base == 10 || base == 16
    ensures Value(r, base) == u as int
    ensures forall i :: 0 <= i < |r| ==> IsDigit(r[i], base)
  {
    PrintDigitDigits(u as nat, base);
    PrintDigitReads(u as nat, base);
    PrintDigit(u as int, base)
  }

  /** %x of 0x80000000 prints one character that is not a hex digit instead of "80000000". */
  lemma PrintNumHighBit()
    ensures PrintNumAsWritten(0x8000_0000, 16) == ['0' as int - 0x8000_0000]
    ensures !IsDigit(PrintNumAsWritten(0x8000_0000, 16)[0], 16)
    ensures PrintNumAsWritten(0x8000_0000, 16) != PrintNum(0x8000_0000, 16)
  {
  }

  /** Below 2^31 the two readings of the argument agree. */
  lemma PrintNumLow(u: U32, base: int)
    requires (base == 10 || base == 16) && u < 0x8000_0000
    ensures PrintNumAsWritten(u, base) == PrintNum(u, base)
  {
  }

  /** Arguments the walk of fmt takes, starting in the conversion state when transfer holds. */
  function Conversions(fmt: seq<char>, transfer: bool): nat {
    if |fmt| == 0 || fmt[0] == '\0' then 0
    else if !transfer then Conversions(fmt[1..], fmt[0] == '%')
    else if fmt[0] == 'x' || fmt[0] == 'd' then 1 + Conversions(fmt[1..], false)
    else Conversions(fmt[1..], true)
  }

  /** What cprintf prints, and how many arguments it fetched. */
  datatype Printed = Printed(out: seq<int>, used: nat)

  /** The output of the walk of fmt from the given state with the given arguments. */
  function Format(fmt: seq<char>, transfer: bool, args: seq<U32>): (r: Printed)
    requires Conversions(fmt, transfer) <= |args|
    ensures r.used == Conversions(fmt, transfer)
  {
    if |fmt| == 0 || fmt[0] == '\0' then Printed([], 0)
    else if !transfer then
      if fmt[0] == '%' then Format(fmt[1..], true, args)
      else
        var r := Format(fmt[1..], false, args);
        Printed([fmt[0] as int] + r.out, r.used)
    else if fmt[0] == 'x' || fmt[0] == 'd' then
      var r := Format(fmt[1..], false, args[1..]);
      Printed(PrintNumAsWritten(args[0], if fmt[0] == 'x' then 16 else 10) + r.out, r.used + 1)
    else Format(fmt[1..], true, args)
  }

  /** Text without '%' or NUL is printed verbatim and takes no argument. */
  lemma {:induction false} FormatVerbatim(fmt: seq<char>, args: seq<U32>)
    requires forall i :: 0 <= i < |fmt| ==> fmt[i] != '%' && fmt[i] != '\0'
    ensures Conversions(fmt, false) == 0
    ensures Format(fmt, false, args).out == Chars(fmt)
  {
    if |fmt| > 0 {
      FormatVerbatim(fmt[1..], args);
      assert Chars(fmt) == [fmt[0] as int] + Chars(fmt[1..]);
    }
  }

  /** The characters of a string as the ints cons_putc receives. */
  function Chars(s: string): (r: seq<int>)
    ensures |r| == |s| && forall i :: 0 <= i < |s| ==> r[i] == s[i] as int
  {
    seq(|s|, i requires 0 <= i < |s| => s[i] as int)
  }

  /** After '%', text with no 'x', 'd' or NUL is swallowed. */
  lemma {:induction false} FormatSwallowed(fmt: seq<char>, args: seq<U32>)
    requires forall i :: 0 <= i < |fmt| ==> fmt[i] != 'x' && fmt[i] != 'd' && fmt[i] != '\0'
    ensures Conversions(fmt, true) == 0 && Format(fmt, true, args).out == []
  {
    if |fmt| > 0 {
      FormatSwallowed(fmt[1..], args);
    }
  }

  /**
   * A conversion cprintf does not know, such as %s: the text before the '%'
   * is printed and everything after it is swallowed when no 'x' or 'd'
   * follows.
   */
  lemma {:induction false} FormatUnsupported(pre: string, rest: string)
    requires forall i :: 0 <= i < |pre| ==> pre[i] != '%' && pre[i] != '\0'
    requires forall i :: 0 <= i < |rest| ==> rest[i] != 'x' && rest[i] != 'd' && rest[i] != '\0'
    ensures Conversions(pre + "%" + rest, false) == 0
    ensures Format(pre + "%" + rest, false, []).out == Chars(pre)
  {
    if |pre| == 0 {
      assert (pre + "%" + rest)[1..] == rest;
      FormatSwallowed(rest, []);
    } else {
      assert (pre + "%" + rest)[1..] == pre[1..] + "%" + rest;
      FormatUnsupported(pre[1..], rest);
      assert Chars(pre) == [pre[0] as int] + Chars(pre[1..]);
    }
  }

  /**
   * "%x" and "%d" print their one argument in hexadecimal and decimal, as
   * print_num reads it: below 2^31 that is the unsigned value's digits;
   * 0x80000000 comes out as one character that is no hex digit.
   */
  lemma FormatOne(u: U32)
    ensures Format("%x", false, [u]) == Printed(PrintNumAsWritten(u, 16), 1)
    ensures Format("%d", false, [u]) == Printed(PrintNumAsWritten(u, 10), 1)
    ensures u < 0x8000_0000 ==>
      Format("%x", false, [u]).out == PrintNum(u, 16) && Format("%d", false, [u]).out == PrintNum(u, 10)
    ensures u == 0x8000_0000 ==>
      |Format("%x", false, [u]).out| == 1 && !IsDigit(Format("%x", false, [u]).out[0], 16)
  {
    assert "%x"[1..] == "x" && "x"[1..] == [];
    assert "%d"[1..] == "d" && "d"[1..] == [];
    assert [u][1..] == [];
    assert Format("x", true, [u]) == Printed(PrintNumAsWritten(u, 16), 1);
    assert Format("d", true, [u]) == Printed(PrintNumAsWritten(u, 10), 1);
    if u < 0x8000_0000 {
      PrintNumLow(u, 16);
      PrintNumLow(u, 10);
    } else if u == 0x8000_0000 {
      PrintNumHighBit();
    }
  }

  /** One step of the walk: what the first character prints and which state and arguments the rest starts with. */
  lemma FormatHead(s: seq<char>, transfer: bool, a: seq<U32>)
    requires |s| > 0 && s[0] != '\0' && Conversions(s, transfer) <= |a|
    ensures var r := Format(s, transfer, a);
      if !transfer && s[0] != '%' then
        r == Printed([s[0] as int] + Format(s[1..], false, a).out, Format(s[1..], false, a).used)
      else if transfer && (s[0] == 'x' || s[0] == 'd') then
        r == Printed(PrintNumAsWritten(a[0], if s[0] == 'x' then 16 else 10) + Format(s[1..], false, a[1..]).out,
                     Format(s[1..], false, a[1..]).used + 1)
      else r == Format(s[1..], true, a)
  {
  }

  /**
   * The loop state of cprintf after i characters: out and used are what the
   * first i characters printed and fetched, and the rest of the walk
   * finishes the whole format.
   */
  ghost predicate Walked(fmt: seq<char>, args: seq<U32>, i: nat, transfer: bool, out: seq<int>, used: nat) {
    i <= |fmt| && used <= |args| && Conversions(fmt, false) <= |args| &&
    used + Conversions(fmt[i..], transfer) == Conversions(fmt, false) &&
    Format(fmt, false, args) ==
      Printed(out + Format(fmt[i..], transfer, args[used..]).out, used + Format(fmt[i..], transfer, args[used..]).used)
  }

  /** One character of the walk keeps the loop state, in each of the four cases of the switch. */
  lemma Advance(fmt: seq<char>, args: seq<U32>, i: nat, transfer: bool, out: seq<int>, used: nat)
    requires Walked(fmt, args, i, transfer, out, used) && i < |fmt| && fmt[i] != '\0'
    ensures !transfer && fmt[i] == '%' ==> Walked(fmt, args, i + 1, true, out, used)
    ensures !transfer && fmt[i] != '%' ==> Walked(fmt, args, i + 1, false, out + [fmt[i] as int], used)
    ensures transfer && (fmt[i] == 'x' || fmt[i] == 'd') ==>
      used < |args| &&
      Walked(fmt, args, i + 1, false, out + PrintNumAsWritten(args[used], if fmt[i] == 'x' then 16 else 10), used + 1)
    ensures transfer && fmt[i] != 'x' && fmt[i] != 'd' ==> Walked(fmt, args, i + 1, true, out, used)
  {
    assert fmt[i..][1..] == fmt[i + 1..];
    FormatHead(fmt[i..], transfer, args[used..]);
    if transfer && (fmt[i] == 'x' || fmt[i] == 'd') {
      assert args[used..][1..] == args[used + 1..];
      var p := PrintNumAsWritten(args[used], if fmt[i] == 'x' then 16 else 10);
      var r := Format(fmt[i + 1..], false, args[used + 1..]);
      assert out + (p + r.out) == (out + p) + r.out;
    } else if !transfer && fmt[i] != '%' {
      var r := Format(fmt[i + 1..], false, args[used..]);
      assert out + ([fmt[i] as int] + r.out) == (out + [fmt[i] as int]) + r.out;
    }
  }

  /** cprintf: the format walk with a status variable and an argument cursor. */
  method Cprintf(fmt: seq<char>, args: seq<U32>) returns (out: seq<int>, used: nat)
    requires Conversions(fmt, false) <= |args|
    ensures Printed(out, used) == Format(fmt, false, args)
  {
    var i := 0;
    var transfer := false;
    out := [];
    used := 0;
    assert fmt[0..] == fmt && args[0..] == args;
    while i < |fmt| && fmt[i] != '\0'
      invariant Walked(fmt, args, i, transfer, out, used)
    {
      Advance(fmt, args, i, transfer, out, used);
      var c := fmt[i];
      if !transfer {
        if c == '%' {
          transfer := true;
        } else {
          out := out + [c as int];
        }
      } else if c == 'x' || c == 'd' {
        out := out + PrintNumAsWritten(args[used], if c == 'x' then 16 else 10);
        used := used + 1;
        transfer := false;
      }
      i := i + 1;
    }
    assert Format(fmt[i..], transfer, args[used..]) == Printed([], 0);
    assert out + [] == out;
  }
}
