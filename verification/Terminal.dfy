/** The terminal of boards/esp32c6/src/lcd.rs: a grid of 11 rows of 51 characters with dirty marks. It
    shows the end of an unbounded transcript. */
module TermSpec {
  const COLS: nat := 51
  const ROWS: nat := 11
  const SPACE: Byte := 32

  type Byte = b: nat | b < 256
  type Row = r: seq<Byte> | |r| == COLS witness seq(COLS, _ => SPACE)
  type Screen = s: seq<Row> | |s| == ROWS witness seq<Row>(ROWS, _ => BLANK)
  type Lens = s: seq<nat> | |s| == ROWS witness seq(ROWS, _ => 0)
  type Marks = s: seq<bool> | |s| == ROWS witness seq(ROWS, _ => false)

  const BLANK: Row := seq(COLS, _ => SPACE)

  datatype Term = Term(screen: Screen, lens: Lens, row: nat, col: nat, dirty: Marks)

  /** The cursor is on the screen, not past the end of its row; the rows below it are empty. */
  predicate Ok(t: Term) {
    && t.row < ROWS && t.col <= t.lens[t.row]
    && forall i | 0 <= i < ROWS :: t.lens[i] <= COLS && (i > t.row ==> t.lens[i] == 0)
  }

  function Start(): (t: Term)
    ensures Ok(t)
  {
    Term(seq<Row>(ROWS, _ => BLANK), seq(ROWS, _ => 0), 0, 0, seq(ROWS, _ => false))
  }

  function Clean(t: Term): Term {
    t.(dirty := seq(ROWS, _ => false))
  }

  function ScrollUp(t: Term): Term {
    t.(screen := t.screen[1..] + [BLANK], lens := t.lens[1..] + [0], dirty := seq(ROWS, _ => true))
  }

  function Newline(t: Term): (r: Term)
    requires Ok(t)
    ensures Ok(r) && r.col == 0
  {
    if t.row < ROWS - 1 then t.(row := t.row + 1, col := 0, dirty := t.dirty[t.row + 1 := true])
    else ScrollUp(t.(col := 0))
  }

  /** Writes `c` at the cursor, which is not at the end of a full row. */
  function Write(t: Term, c: Byte): (r: Term)
    requires Ok(t) && t.col < COLS
    ensures Ok(r)
  {
    var line := t.screen[t.row][t.col := c];
    var len := if t.col + 1 > t.lens[t.row] then t.col + 1 else t.lens[t.row];
    t.(screen := t.screen[t.row := line], lens := t.lens[t.row := len], col := t.col + 1,
       dirty := t.dirty[t.row := true])
  }

  function PutChar(t: Term, c: Byte): (r: Term)
    requires Ok(t)
    ensures Ok(r)
  {
    if t.col >= COLS then Write(Newline(t), c) else Write(t, c)
  }

  function Backspace(t: Term): (r: Term)
    requires Ok(t)
    ensures Ok(r)
  {
    if t.col == 0 then t
    else
      var col := t.col - 1;
      t.(screen := t.screen[t.row := t.screen[t.row][col := SPACE]], lens := t.lens[t.row := col], col := col,
         dirty := t.dirty[t.row := true])
  }

  function Feed(t: Term, c: Byte): (r: Term)
    requires Ok(t)
    ensures Ok(r)
  {
    if c == 10 then Newline(t)
    else if c == 13 then t.(col := 0)
    else if c == 8 || c == 0x7F then Backspace(t)
    else if c >= 0x20 then PutChar(t, c)
    else t
  }

  function FeedAll(t: Term, cs: seq<Byte>): (r: Term)
    requires Ok(t)
    ensures Ok(r)
    decreases |cs|
  {
    if cs == [] then t else FeedAll(Feed(t, cs[0]), cs[1..])
  }

  /** What row `i` shows. */
  function Text(t: Term, i: nat): seq<Byte>
    requires Ok(t) && i < ROWS
  {
    t.screen[i][..t.lens[i]]
  }

  // ---- The transcript ----------------------------------------------------------------------

  /** All lines ever written, the last one being written, and the column in it. */
  datatype Doc = Doc(lines: seq<seq<Byte>>, col: nat)

  predicate DocOk(d: Doc) {
    && d.lines != [] && d.col <= |Last(d)| && forall l | l in d.lines :: |l| <= COLS
  }

  function Last(d: Doc): seq<Byte>
    requires d.lines != []
  {
    d.lines[|d.lines| - 1]
  }

  function EmptyDoc(): Doc {
    Doc([[]], 0)
  }

  /** The document with `line` for its last line. */
  function Edit(d: Doc, line: seq<Byte>, col: nat): Doc
    requires d.lines != []
  {
    Doc(d.lines[|d.lines| - 1 := line], col)
  }

  function NewLine(d: Doc): Doc {
    Doc(d.lines + [[]], 0)
  }

  function Type(d: Doc, c: Byte): Doc
    requires DocOk(d)
  {
    var e := if d.col >= COLS then NewLine(d) else d;
    var l := Last(e);
    Edit(e, if e.col < |l| then l[e.col := c] else l + [c], e.col + 1)
  }

  /** A line feed starts a line, a carriage return goes to its beginning, a backspace cuts it off before
      the character it deletes, a printable character overwrites or extends it, and a full line is
      followed by a new one. */
  function Log(d: Doc, c: Byte): (r: Doc)
    requires DocOk(d)
    ensures DocOk(r)
  {
    if c == 10 then NewLine(d)
    else if c == 13 then d.(col := 0)
    else if c == 8 || c == 0x7F then (if d.col == 0 then d else Edit(d, Last(d)[..d.col - 1], d.col - 1))
    else if c >= 0x20 then Type(d, c)
    else d
  }

  function LogAll(d: Doc, cs: seq<Byte>): (r: Doc)
    requires DocOk(d)
    ensures DocOk(r)
    decreases |cs|
  {
    if cs == [] then d else LogAll(Log(d, cs[0]), cs[1..])
  }

  /** The lines at the end of the transcript that fit on the screen. */
  function Visible(d: Doc): seq<seq<Byte>> {
    if |d.lines| <= ROWS then d.lines else d.lines[|d.lines| - ROWS..]
  }

  /** The screen shows the visible lines from the top, nothing below them, and the cursor in the last. */
  ghost predicate Shows(t: Term, d: Doc)
    requires Ok(t)
  {
    && t.row + 1 == |Visible(d)| && t.col == d.col
    && forall i | 0 <= i < ROWS :: Text(t, i) == if i <= t.row then Visible(d)[i] else []
  }

  lemma VisibleNewLine(d: Doc)
    requires d.lines != []
    ensures Visible(NewLine(d)) == (if |Visible(d)| < ROWS then Visible(d) else Visible(d)[1..]) + [[]]
  {
  }

  lemma NewlineShows(t: Term, d: Doc)
    requires Ok(t) && DocOk(d) && Shows(t, d)
    ensures Shows(Newline(t), NewLine(d))
  {
    var t', d' := Newline(t), NewLine(d);
    VisibleNewLine(d);
    forall i | 0 <= i < ROWS ensures Text(t', i) == if i <= t'.row then Visible(d')[i] else [] {
      if t.row < ROWS - 1 {
        assert Text(t', i) == Text(t, i);
      } else if i + 1 < ROWS {
        assert Text(t', i) == Text(t, i + 1);
      }
    }
  }

  /** An edit of the cursor's row is the same edit of the last line. */
  lemma EditShows(t: Term, d: Doc, t': Term, line: seq<Byte>)
    requires Ok(t) && DocOk(d) && Shows(t, d) && Ok(t') && t'.row == t.row
    requires forall i | 0 <= i < ROWS && i != t.row :: Text(t', i) == Text(t, i)
    requires Text(t', t.row) == line
    ensures Shows(t', Edit(d, line, t'.col))
  {
    VisibleEdit(d, line, t'.col);
  }

  lemma VisibleEdit(d: Doc, line: seq<Byte>, col: nat)
    requires d.lines != []
    ensures Visible(Edit(d, line, col)) == Visible(d)[|Visible(d)| - 1 := line]
  {
  }

  lemma BackspaceShows(t: Term, d: Doc)
    requires Ok(t) && DocOk(d) && Shows(t, d) && t.col > 0
    ensures Shows(Backspace(t), Edit(d, Last(d)[..d.col - 1], d.col - 1))
  {
    assert Last(d) == Text(t, t.row);
    EditShows(t, d, Backspace(t), Last(d)[..d.col - 1]);
  }

  lemma ReturnShows(t: Term, d: Doc)
    requires Ok(t) && DocOk(d) && Shows(t, d)
    ensures Shows(t.(col := 0), d.(col := 0))
  {
    assert forall i | 0 <= i < ROWS :: Text(t.(col := 0), i) == Text(t, i);
  }

  lemma WriteShows(t: Term, d: Doc, c: Byte)
    requires Ok(t) && DocOk(d) && Shows(t, d) && t.col < COLS && c >= 0x20 && c != 0x7F
    ensures Shows(Write(t, c), Type(d, c))
  {
    var t', l := Write(t, c), Last(d);
    assert l == Text(t, t.row);
    var line := if d.col < |l| then l[d.col := c] else l + [c];
    assert Text(t', t.row) == line;
    EditShows(t, d, t', line);
  }

  lemma PutCharShows(t: Term, d: Doc, c: Byte)
    requires Ok(t) && DocOk(d) && Shows(t, d) && c >= 0x20 && c != 0x7F
    ensures Shows(PutChar(t, c), Type(d, c))
  {
    if t.col >= COLS {
      NewlineShows(t, d);
      WriteShows(Newline(t), NewLine(d), c);
      assert Type(NewLine(d), c) == Type(d, c);
    } else {
      WriteShows(t, d, c);
    }
  }

  lemma FeedShows(t: Term, d: Doc, c: Byte)
    requires Ok(t) && DocOk(d) && Shows(t, d)
    ensures Shows(Feed(t, c), Log(d, c))
  {
    if c == 10 {
      NewlineShows(t, d);
    } else if c == 13 {
      ReturnShows(t, d);
    } else if c == 8 || c == 0x7F {
      if t.col > 0 {
        BackspaceShows(t, d);
      }
    } else if c >= 0x20 {
      PutCharShows(t, d, c);
    }
  }

  lemma {:induction false} FeedAllShows(t: Term, d: Doc, cs: seq<Byte>)
    requires Ok(t) && DocOk(d) && Shows(t, d)
    ensures Shows(FeedAll(t, cs), LogAll(d, cs))
    decreases |cs|
  {
    if cs == [] {
    } else {
      FeedShows(t, d, cs[0]);
      FeedAllShows(Feed(t, cs[0]), Log(d, cs[0]), cs[1..]);
    }
  }

  /** Whatever bytes come, the screen shows the end of the transcript. */
  lemma ScreenIsEndOfTranscript(cs: seq<Byte>)
    ensures Shows(FeedAll(Start(), cs), LogAll(EmptyDoc(), cs))
  {
    FeedAllShows(Start(), EmptyDoc(), cs);
  }

  // ---- Dirty marks -------------------------------------------------------------------------

  /** A row that changed is marked, and a mark stays. */
  ghost predicate Marked(t: Term, t': Term)
    requires Ok(t) && Ok(t')
  {
    forall i | 0 <= i < ROWS :: t'.dirty[i] || (!t.dirty[i] && Text(t', i) == Text(t, i))
  }

  lemma FeedMarks(t: Term, c: Byte)
    requires Ok(t)
    ensures Marked(t, Feed(t, c))
  {
  }

  lemma {:induction false} FeedAllMarks(t: Term, cs: seq<Byte>)
    requires Ok(t)
    ensures Marked(t, FeedAll(t, cs))
    decreases |cs|
  {
    if cs == [] {
    } else {
      FeedMarks(t, cs[0]);
      FeedAllMarks(Feed(t, cs[0]), cs[1..]);
    }
  }

  /** The number of marks. */
  function Count(marks: seq<bool>): nat {
    if marks == [] then 0
    else Count(marks[..|marks| - 1]) + (if marks[|marks| - 1] then 1 else 0)
  }
}

/** The class `Terminal`, proved against the functions of `TermSpec`. */
module Terminals {
  import opened TermSpec

  class Terminal {
    const screen: array<Row>
    const lens: array<nat>
    const dirty: array<bool>
    var cursorRow: nat
    var cursorCol: nat
    ghost const Repr: set<object>

    ghost predicate Valid()
      reads this, Repr
    {
      && screen.Length == ROWS && lens.Length == ROWS && dirty.Length == ROWS
      && Repr == {this, screen, lens, dirty}
      && Ok(V())
    }

    ghost function V(): Term
      requires screen.Length == ROWS && lens.Length == ROWS && dirty.Length == ROWS
      requires Repr == {this, screen, lens, dirty}
      reads this, Repr
    {
      Term(screen[..], lens[..], cursorRow, cursorCol, dirty[..])
    }

    constructor ()
      ensures Valid() && fresh(Repr) && V() == Start()
    {
      var s := new Row[ROWS](_ => BLANK);
      var l := new nat[ROWS](_ => 0);
      var d := new bool[ROWS](_ => false);
      screen, lens, dirty := s, l, d;
      cursorRow, cursorCol := 0, 0;
      Repr := {this, s, l, d};
      new;
      assert V() == Start();
    }

    method Feed(c: Byte)
      requires Valid()
      modifies Repr
      ensures Valid() && V() == TermSpec.Feed(old(V()), c)
    {
      if c == 10 {
        Newline();
      } else if c == 13 {
        cursorCol := 0;
      } else if c == 8 || c == 0x7F {
        Backspace();
      } else if c >= 0x20 {
        PutChar(c);
      }
    }

    method PutChar(c: Byte)
      requires Valid()
      modifies Repr
      ensures Valid() && V() == TermSpec.PutChar(old(V()), c)
    {
      if cursorCol >= COLS {
        Newline();
      }
      screen[cursorRow] := screen[cursorRow][cursorCol := c];
      cursorCol := cursorCol + 1;
      if cursorCol > lens[cursorRow] {
        lens[cursorRow] := cursorCol;
      }
      dirty[cursorRow] := true;
      assert V() == TermSpec.PutChar(old(V()), c);
    }

    method Newline()
      requires Valid()
      modifies Repr
      ensures Valid() && V() == TermSpec.Newline(old(V()))
    {
      cursorCol := 0;
      if cursorRow < ROWS - 1 {
        cursorRow := cursorRow + 1;
      } else {
        ScrollUp();
      }
      dirty[cursorRow] := true;
      assert V() == TermSpec.Newline(old(V()));
    }

    method Backspace()
      requires Valid()
      modifies Repr
      ensures Valid() && V() == TermSpec.Backspace(old(V()))
    {
      if cursorCol > 0 {
        cursorCol := cursorCol - 1;
        screen[cursorRow] := screen[cursorRow][cursorCol := SPACE];
        if cursorCol < lens[cursorRow] {
          lens[cursorRow] := cursorCol;
        }
        dirty[cursorRow] := true;
        assert V() == TermSpec.Backspace(old(V()));
      }
    }

    method ScrollUp()
      requires Valid() && cursorRow == ROWS - 1 && cursorCol == 0
      modifies screen, lens, dirty
      ensures Valid() && V() == TermSpec.ScrollUp(old(V()))
    {
      ShiftRows();
      screen[ROWS - 1] := BLANK;
      lens[ROWS - 1] := 0;
      forall i | 0 <= i < ROWS {
        dirty[i] := true;
      }
      assert screen[..] == old(screen[..])[1..] + [BLANK];
      assert lens[..] == old(lens[..])[1..] + [0];
    }

    /** Every row but the last takes over the one below it. */
    method ShiftRows()
      requires Valid()
      modifies screen, lens
      ensures forall i | 0 <= i < ROWS - 1 :: screen[i] == old(screen[i + 1]) && lens[i] == old(lens[i + 1])
    {
      for i := 0 to ROWS - 1
        invariant forall j | 0 <= j < i :: screen[j] == old(screen[j + 1]) && lens[j] == old(lens[j + 1])
        invariant forall j | i <= j < ROWS :: screen[j] == old(screen[j]) && lens[j] == old(lens[j])
      {
        screen[i] := screen[i + 1];
        lens[i] := lens[i + 1];
      }
    }

    method DirtyCount() returns (n: nat)
      requires Valid()
      ensures n == Count(dirty[..])
    {
      n := 0;
      for i := 0 to ROWS
        invariant n == Count(dirty[..i])
      {
        assert dirty[..i + 1][..i] == dirty[..i];
        if dirty[i] {
          n := n + 1;
        }
      }
      assert dirty[..ROWS] == dirty[..];
    }

    method ClearDirty()
      requires Valid()
      modifies dirty
      ensures Valid() && V() == Clean(old(V()))
    {
      forall i | 0 <= i < ROWS {
        dirty[i] := false;
      }
      assert V() == Clean(old(V()));
    }
  }
}
