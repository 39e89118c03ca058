/**
 * The CGA text console (kern/drivers/cga.c).
 *
 * The screen is the 16-bit cell buffer at 0xB8000, indexed by the 16-bit
 * cursor position `crt_pos`; every position a uint16_t can hold is a cell of
 * the buffer (there is no scrolling, so the cursor can run past the visible
 * 80x25 screen).  A cell holds the character in its low byte and the
 * attribute in its high byte.  The cursor registers of the 6845 are written
 * through the index port 0x3D4 and the data port 0x3D5; those writes are
 * recorded as a trace.
 */
module Cga {
  import opened PortIo

  const CGA_BASE: nat := 0x3D4
  const CRT_COLS: nat := 80
  /** Number of positions a uint16_t cursor can take. */
  const POSITIONS: nat := 0x10000
  /** The attribute cga_putc ors into every character: light grey on black. */
  const ATTR: nat := 0x07

  newtype U16 = x: int | 0 <= x < 0x10000

  const BS: nat := 8
  const LF: nat := 10
  const CR: nat := 13

  /** A character cell with the console attribute. */
  function Cell(c: nat): (r: U16)
    requires c < 256
    ensures r as int / 256 == ATTR && r as int % 256 == c
  {
    (ATTR * 256 + c) as U16
  }

  /** The cursor position after cga_putc(c) at position pos, uint16_t wrap-around included. */
  function NextPos(pos: nat, c: nat): (r: nat)
    requires pos < POSITIONS
    ensures r < POSITIONS
  {
    if c == BS then (if pos > 0 then pos - 1 else pos)
    else if c == LF then
      var p := (pos + CRT_COLS) % POSITIONS;
      p - p % CRT_COLS
    else if c == CR then pos - pos % CRT_COLS
    else (pos + 1) % POSITIONS
  }

  /** The cells after cga_putc(c) at position pos. */
  function Written(cells: seq<U16>, pos: nat, c: nat): (r: seq<U16>)
    requires |cells| == POSITIONS && pos < POSITIONS && c < 256
    ensures |r| == |cells|
  {
    if c == BS then (if pos > 0 then cells[pos - 1 := Cell(' ' as nat)] else cells)
    else if c == LF || c == CR then cells
    else cells[pos := Cell(c)]
  }

  /** The four cursor-register writes for position p: index 14 gets the high byte, index 15 the low byte. */
  function CursorWrites(p: nat): (w: seq<Event>)
    requires p < POSITIONS
  {
    [OutB(CGA_BASE, 14), OutB(CGA_BASE + 1, p / 256),
     OutB(CGA_BASE, 15), OutB(CGA_BASE + 1, p % 256)]
  }

  /** The two data bytes of the cursor writes put the position back together. */
  lemma CursorBytes(p: nat)
    requires p < POSITIONS
    ensures CursorWrites(p)[1].value as nat * 256 + CursorWrites(p)[3].value as nat == p
  {
    assert p == p / 256 * 256 + p % 256;
  }


  /**
   * At most one cell changes: the one at the old position for a printable
   * character, the one before it for a backspace; a changed cell carries
   * attribute 0x07 and the character (a blank for a backspace).
   */
  lemma WrittenCells(cells: seq<U16>, pos: nat, c: nat, k: nat)
    requires |cells| == POSITIONS && pos < POSITIONS && c < 256 && k < POSITIONS
    requires Written(cells, pos, c)[k] != cells[k]
    ensures c != LF && c != CR
    ensures c == BS ==> k == pos - 1 && Written(cells, pos, c)[k] == Cell(' ' as nat)
    ensures c != BS ==> k == pos && Written(cells, pos, c)[k] == Cell(c)
    ensures Written(cells, pos, c)[k] as int / 256 == ATTR
  {
  }

  /** A newline moves to column 0 of the next row, unless the cursor wraps past 0xFFFF. */
  lemma NewlinePos(pos: nat)
    requires pos + CRT_COLS < POSITIONS
    ensures NextPos(pos, LF) == (pos / CRT_COLS + 1) * CRT_COLS
  {
    var p := pos + CRT_COLS;
    assert p % CRT_COLS == pos % CRT_COLS;
    assert pos == (pos / CRT_COLS) * CRT_COLS + pos % CRT_COLS;
  }

  /** A carriage return moves to column 0 of the same row. */
  lemma ReturnPos(pos: nat)
    requires pos < POSITIONS
    ensures NextPos(pos, CR) % CRT_COLS == 0 && NextPos(pos, CR) / CRT_COLS == pos / CRT_COLS
  {
    assert pos == (pos / CRT_COLS) * CRT_COLS + pos % CRT_COLS;
  }

  /** A backspace moves one cell back unless already at 0; any other character moves one cell forward. */
  lemma StepPos(pos: nat, c: nat)
    requires pos < POSITIONS && c < 256 && c != LF && c != CR
    ensures c == BS ==> NextPos(pos, c) == if pos > 0 then pos - 1 else 0
    ensures c != BS && pos + 1 < POSITIONS ==> NextPos(pos, c) == pos + 1
  {
  }

  class Console {
    /** The text buffer at 0xB8000, one cell per cursor position. */
    const buf: array<U16>
    /** crt_pos. */
    var pos: nat
    /** The port writes issued so far, oldest first. */
    var trace: seq<Event>

    predicate Valid()
      reads this
    {
      buf.Length == POSITIONS && pos < POSITIONS
    }

    /**
     * cga_init: select cursor registers 14 and 15 and read the position's
     * high and low bytes from the data port.
     */
    constructor (video: array<U16>, hi: bv8, lo: bv8)
      requires video.Length == POSITIONS
      ensures Valid() && buf == video
      ensures pos == hi as nat * 256 + lo as nat
      ensures trace == [OutB(CGA_BASE, 14), OutB(CGA_BASE, 15)]
    {
      buf := video;
      var p := hi as nat * 256;
      p := p + lo as nat;
      pos := p;
      trace := [OutB(CGA_BASE, 14), OutB(CGA_BASE, 15)];
    }

    /** cga_putc: update at most one cell and the position, then move the hardware cursor. */
    method Putc(c: nat)
      requires Valid() && c < 256
      modifies this, buf
      ensures Valid()
      ensures pos == NextPos(old(pos), c)
      ensures buf[..] == Written(old(buf[..]), old(pos), c)
      ensures trace == old(trace) + CursorWrites(pos)
    {
      if c == BS {
        if pos > 0 {
          pos := pos - 1;
          buf[pos] := Cell(' ' as nat);
        }
      } else if c == LF || c == CR {
        if c == LF {
          pos := (pos + CRT_COLS) % POSITIONS;
        }
        pos := pos - pos % CRT_COLS;
      } else {
        buf[pos] := Cell(c);
        pos := (pos + 1) % POSITIONS;
      }
      trace := trace + CursorWrites(pos);
    }
  }
}
