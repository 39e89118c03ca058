/**
 * The kernel's interactive shell (kern/cons/shell.c).
 *
 * Keystrokes are collected in a 128-byte line buffer; Enter runs the line
 * through the command table and Backspace removes the last character.
 * Scanning the line (skipping spaces, strncmp, the table lookup) is pure
 * and is modelled by functions over C strings; the line editor is a class
 * whose fields are the buffer, the position and what has been printed and
 * run.  The bodies of the commands are not part of this model: a command
 * appears only as the table entry that was chosen.
 */
module Shell {
  import opened Opt
  import Stdio

  const CMD_BUF_SIZE: nat := 128
  /** The delete key, which the editor ignores. */
  const ASCII_DEL: int := 127
  /** Printable characters are those in [ASCII_PRINTABLE_MIN, ASCII_PRINTABLE_MAX). */
  const ASCII_PRINTABLE_MIN: int := 32
  const ASCII_PRINTABLE_MAX: int := 127
  /** '\b'. */
  const BACKSPACE: int := 8

  /** The commands of the table, one per command function. */
  datatype Cmd = Help | Pgdir | Clear | SwapTest | Lsblk | Hdparm | Disktest | Dd | UnameA | Uname | Ps

  datatype Entry = Entry(name: string, cmd: Cmd)

  /** The command table, in its order: "uname -a" comes before "uname". */
  const COMMANDS: seq<Entry> := [
    Entry("help", Help), Entry("pgdir", Pgdir), Entry("clear", Clear), Entry("swaptest", SwapTest),
    Entry("lsblk", Lsblk), Entry("hdparm", Hdparm), Entry("disktest", Disktest), Entry("dd", Dd),
    Entry("uname -a", UnameA), Entry("uname", Uname), Entry("ps", Ps)]

  /** A C string's characters, without its terminator. */
  predicate CStr(s: string) {
    forall i :: 0 <= i < |s| ==> s[i] != '\0'
  }

  /** The character at index i of a C string: the terminator from |s| on. */
  function At(s: string, i: nat): char {
    if i < |s| then s[i] else '\0'
  }

  /**
   * strncmp: advance while n is left, s1 has not ended and the characters
   * agree; 0 if n ran out, else the difference of the characters reached.
   */
  function Strncmp(s1: string, s2: string, n: nat): int {
    if n > 0 && At(s1, 0) != '\0' && At(s1, 0) == At(s2, 0) then
      Strncmp(s1[1..], s2[1..], n - 1)
    else if n == 0 then 0
    else At(s1, 0) as int - At(s2, 0) as int
  }

  /**
   * strncmp is 0 exactly when the strings agree on their first n characters,
   * counting s1's terminator: so either both agree for n characters or both
   * end at the same point before n.
   */
  lemma {:induction false} StrncmpZero(s1: string, s2: string, n: nat)
    requires CStr(s1)
    ensures Strncmp(s1, s2, n) == 0 <==> forall i :: 0 <= i < n && i <= |s1| ==> At(s1, i) == At(s2, i)
  {
    if n > 0 && At(s1, 0) != '\0' && At(s1, 0) == At(s2, 0) {
      StrncmpZero(s1[1..], s2[1..], n - 1);
      forall i | 1 <= i < n && i <= |s1|
        ensures At(s1, i) == At(s1[1..], i - 1) && At(s2, i) == At(s2[1..], i - 1)
      {
      }
      if forall i :: 0 <= i < n && i <= |s1| ==> At(s1, i) == At(s2, i) {
        forall i | 0 <= i < n - 1 && i <= |s1[1..]|
          ensures At(s1[1..], i) == At(s2[1..], i)
        {
          assert At(s1, i + 1) == At(s2, i + 1);
        }
      }
    }
  }

  /** Where strncmp gives 0, the strings agree at every index before n up to s1's terminator. */
  lemma StrncmpAt(s1: string, s2: string, n: nat, i: nat)
    requires CStr(s1) && Strncmp(s1, s2, n) == 0 && i < n && i <= |s1|
    ensures At(s1, i) == At(s2, i)
  {
    StrncmpZero(s1, s2, n);
  }

  /** An entry matches when strncmp over its length is 0 and the line then ends or has a space. */
  predicate Matches(cmd: string, name: string) {
    Strncmp(cmd, name, |name|) == 0 && (At(cmd, |name|) == '\0' || At(cmd, |name|) == ' ')
  }

  /** Matching means: the name is a prefix of the line, and the line ends there or continues with a space. */
  lemma MatchesPrefix(cmd: string, name: string)
    requires CStr(cmd) && CStr(name)
    ensures Matches(cmd, name) <==>
      |name| <= |cmd| && cmd[..|name|] == name && (|cmd| == |name| || cmd[|name|] == ' ')
  {
    StrncmpZero(cmd, name, |name|);
    if Matches(cmd, name) {
      if |cmd| < |name| {
        StrncmpAt(cmd, name, |name|, |cmd|);
        assert false;
      }
      assert cmd[..|name|] == name by {
        forall i | 0 <= i < |name|
          ensures cmd[i] == name[i]
        {
          assert At(cmd, i) == At(name, i);
        }
      }
    }
  }

  /** The index of the first table entry from i on that matches the line. */
  function FirstMatch(cmd: string, i: nat): (r: Option<nat>)
    requires i <= |COMMANDS|
    ensures r.Some? ==> i <= r.value < |COMMANDS| && Matches(cmd, COMMANDS[r.value].name)
    ensures forall j :: i <= j < |COMMANDS| && (r.None? || j < r.value) ==> !Matches(cmd, COMMANDS[j].name)
    decreases |COMMANDS| - i
  {
    if i == |COMMANDS| then None
    else if Matches(cmd, COMMANDS[i].name) then Some(i)
    else FirstMatch(cmd, i + 1)
  }

  /** The line with its leading spaces removed. */
  function SkipSpaces(s: string): (r: string)
    ensures |r| <= |s| && r == s[|s| - |r|..]
    ensures |r| > 0 ==> r[0] != ' '
    ensures forall i :: 0 <= i < |s| - |r| ==> s[i] == ' '
  {
    if |s| > 0 && s[0] == ' ' then SkipSpaces(s[1..]) else s
  }

  /** What execute_command does with a line. */
  datatype Outcome = Empty | Run(cmd: Cmd) | Unknown

  /** execute_command: nothing for a blank line, else the first matching entry's command, else the error message. */
  function Execute(line: string): (o: Outcome)
    requires CStr(line)
    ensures o == Empty <==> forall i :: 0 <= i < |line| ==> line[i] == ' '
  {
    var cmd := SkipSpaces(line);
    if At(cmd, 0) == '\0' then Empty
    else match FirstMatch(cmd, 0)
      case Some(i) => Run(COMMANDS[i].cmd)
      case None => Unknown
  }

  /** The first match from i on is entry k when k matches and no entry from i up to k does. */
  lemma {:induction false} FirstMatchIs(cmd: string, i: nat, k: nat)
    requires i <= k < |COMMANDS| && Matches(cmd, COMMANDS[k].name)
    requires forall j :: i <= j < k ==> !Matches(cmd, COMMANDS[j].name)
    ensures FirstMatch(cmd, i) == Some(k)
    decreases k - i
  {
    if i < k {
      FirstMatchIs(cmd, i + 1, k);
    }
  }

  /** A line that is not blank runs the first entry that matches it after its leading spaces. */
  lemma ExecuteRuns(line: string, k: nat)
    requires CStr(line) && k < |COMMANDS|
    requires exists i :: 0 <= i < |line| && line[i] != ' '
    requires Matches(SkipSpaces(line), COMMANDS[k].name)
    requires forall j :: 0 <= j < k ==> !Matches(SkipSpaces(line), COMMANDS[j].name)
    ensures Execute(line) == Run(COMMANDS[k].cmd)
  {
    FirstMatchIs(SkipSpaces(line), 0, k);
  }

  /** A line with no leading space runs entry k when k is the first entry that matches it. */
  lemma ExecuteFirst(line: string, k: nat)
    requires CStr(line) && |line| > 0 && line[0] != ' ' && k < |COMMANDS|
    requires Matches(line, COMMANDS[k].name)
    requires forall j :: 0 <= j < k ==> !Matches(line, COMMANDS[j].name)
    ensures Execute(line) == Run(COMMANDS[k].cmd)
  {
    assert SkipSpaces(line) == line;
    FirstMatchIs(line, 0, k);
  }

  /** A line with no leading space that no entry matches is unknown. */
  lemma ExecuteNone(line: string)
    requires CStr(line) && |line| > 0 && line[0] != ' '
    requires forall j :: 0 <= j < |COMMANDS| ==> !Matches(line, COMMANDS[j].name)
    ensures Execute(line) == Unknown
  {
    assert SkipSpaces(line) == line;
    var r := FirstMatch(line, 0);
    if r.Some? {
      assert false;
    }
  }

  /** A line whose first k characters differ from a name at index k, or that ends before it, does not match it. */
  lemma NotPrefix(cmd: string, name: string, k: nat)
    requires CStr(cmd) && CStr(name) && k < |name|
    requires k >= |cmd| || cmd[k] != name[k]
    ensures !Matches(cmd, name)
  {
    MatchesPrefix(cmd, name);
  }

  /** None of the first eight entries matches a line starting with 'u'. */
  lemma NotBeforeUname(cmd: string)
    requires CStr(cmd) && |cmd| > 0 && cmd[0] == 'u'
    ensures forall j :: 0 <= j < 8 ==> !Matches(cmd, COMMANDS[j].name)
  {
    forall j | 0 <= j < 8
      ensures !Matches(cmd, COMMANDS[j].name)
    {
      assert COMMANDS[j].name[0] != 'u';
      NotPrefix(cmd, COMMANDS[j].name, 0);
    }
  }

  /** "uname -a" reaches the first uname entry. */
  lemma UnameAll()
    ensures Execute("uname -a") == Run(UnameA)
  {
    var line := "uname -a";
    NotBeforeUname(line);
    MatchesPrefix(line, COMMANDS[8].name);
    ExecuteFirst(line, 8);
  }

  /** "uname" reaches the second uname entry. */
  lemma UnameBare()
    ensures Execute("uname") == Run(Uname)
  {
    var line := "uname";
    NotBeforeUname(line);
    NotPrefix(line, COMMANDS[8].name, 5);
    MatchesPrefix(line, COMMANDS[9].name);
    ExecuteFirst(line, 9);
  }

  /** Leading spaces do not change what a line runs. */
  lemma ExecuteSpaces(line: string)
    requires CStr(line)
    ensures Execute(" " + line) == Execute(line)
  {
    assert (" " + line)[1..] == line;
  }

  /** "uname x" reaches the second uname entry too: only "uname -a" is special. */
  lemma UnameOther()
    ensures Execute("uname x") == Run(Uname)
  {
    var line := "uname x";
    NotBeforeUname(line);
    NotPrefix(line, COMMANDS[8].name, 6);
    MatchesPrefix(line, COMMANDS[9].name);
    ExecuteFirst(line, 9);
  }

  /** "unamex" matches nothing: a name must be followed by the end or a space. */
  lemma UnameGlued()
    ensures Execute("unamex") == Unknown
  {
    var line := "unamex";
    NotBeforeUname(line);
    NotPrefix(line, COMMANDS[8].name, 5);
    assert |COMMANDS[9].name| == 5 && At(line, 5) == 'x';
    NotPrefix(line, COMMANDS[10].name, 0);
    ExecuteNone(line);
  }

  /** The prompt shell_prompt prints. */
  const PROMPT: string := "zonix> "
  const HINT: string := "Type 'help' for available commands.\n"

  /**
   * What Enter prints after the newline: for an unknown command the two
   * messages, then the prompt.  The mini cprintf has no %s, so the first
   * message stops at its '%' (Stdio.FormatUnsupported); the hint and the
   * prompt have no '%' and print verbatim (Stdio.FormatVerbatim).
   */
  function EnterOutput(o: Outcome): seq<int> {
    (if o == Unknown then Stdio.Chars("Unknown command: ") + Stdio.Chars(HINT) else []) + Stdio.Chars(PROMPT)
  }

  /** Characters the editor stores: printable ASCII. */
  predicate Printable(c: int) {
    ASCII_PRINTABLE_MIN <= c < ASCII_PRINTABLE_MAX
  }

  class LineEditor {
    /** cmd_buffer. */
    const buf: array<char>
    /** cmd_pos. */
    var pos: nat
    /** Everything handed to cons_putc so far. */
    var out: seq<int>
    /** The commands run so far, in order. */
    var ran: seq<Cmd>

    /** The buffer holds CMD_BUF_SIZE bytes, the line leaves room for its terminator, and it is printable. */
    ghost predicate Valid()
      reads this, buf
    {
      buf.Length == CMD_BUF_SIZE && pos <= CMD_BUF_SIZE - 1 &&
      forall i :: 0 <= i < pos ==> Printable(buf[i] as int)
    }

    /** The line typed so far. */
    ghost function Line(): (l: string)
      requires Valid()
      reads this, buf
      ensures CStr(l) && |l| <= CMD_BUF_SIZE - 1
    {
      buf[..pos]
    }

    /** shell_init: an empty line (the banner is not modelled). */
    constructor ()
      ensures Valid() && Line() == [] && out == [] && ran == []
      ensures fresh(buf)
    {
      buf := new char[CMD_BUF_SIZE](_ => '\0');
      pos := 0;
      out := [];
      ran := [];
    }

    /** Enter: echo a newline, terminate and run the line, start a new one, print the prompt. */
    method Enter()
      requires Valid()
      modifies this, buf
      ensures Valid() && Line() == []
      ensures var o := Execute(old(Line()));
        ran == old(ran) + (if o.Run? then [o.cmd] else []) &&
        out == old(out) + [10] + EnterOutput(o)
    {
      ghost var line := Line();
      out := out + ['\n' as int];
      buf[pos] := '\0';
      assert buf[..pos] == line;
      var o := Execute(buf[..pos]);
      if o.Run? {
        ran := ran + [o.cmd];
      }
      out := out + EnterOutput(o);
      pos := 0;
    }

    /**
     * shell_handle_char: ignore c <= 0 and DEL; run the line on '\n' or
     * '\r'; drop the last character on '\b' if there is one; append a
     * printable character, echoing it, while a slot besides the
     * terminator's is free.
     */
    method HandleChar(c: int)
      requires Valid() && -128 <= c < 128
      modifies this, buf
      ensures Valid()
      ensures c <= 0 || c == ASCII_DEL ==> Line() == old(Line()) && out == old(out) && ran == old(ran)
      ensures c == '\n' as int || c == '\r' as int ==>
        var o := Execute(old(Line()));
        Line() == [] && ran == old(ran) + (if o.Run? then [o.cmd] else []) &&
        out == old(out) + [10] + EnterOutput(o)
      ensures c == BACKSPACE ==>
        ran == old(ran) &&
        if |old(Line())| > 0 then Line() == old(Line())[..|old(Line())| - 1] && out == old(out) + [c]
        else Line() == old(Line()) && out == old(out)
      ensures c > 0 && c != ASCII_DEL && c != '\n' as int && c != '\r' as int && c != BACKSPACE ==>
        ran == old(ran) &&
        if |old(Line())| < CMD_BUF_SIZE - 1 && Printable(c) then Line() == old(Line()) + [c as char] && out == old(out) + [c]
        else Line() == old(Line()) && out == old(out)
    {
      if c <= 0 {
        return;
      }
      if c == '\n' as int || c == '\r' as int {
        Enter();
      } else if c == BACKSPACE {
        if pos > 0 {
          pos := pos - 1;
          out := out + [c];
        }
      } else if c == ASCII_DEL {
      } else if pos < CMD_BUF_SIZE - 1 && Printable(c) {
        ghost var line := Line();
        buf[pos] := c as char;
        pos := pos + 1;
        assert buf[..pos] == line + [c as char];
        out := out + [c];
      }
    }
  }
}
