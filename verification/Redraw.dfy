/** The redraw loop of boards/esp32c6/src/lcd.rs: whichever way a pass redraws, the panel shows what a
    full redraw of the terminal would, and so the end of the transcript. */
module Redraw {
  import opened TermSpec
  import opened Terminals

  const WIDTH: nat := 320
  const HEIGHT: nat := 172
  const MARGIN_TOP: nat := 10
  const ROW_H: nat := 14

  /** One line of pixels. */
  type Line = seq<nat>

  /** `paint(line, text, dy)` is `line`, line `dy` of a row's band, after `text` has been drawn on top of
      it. How glyphs look, and that a text that is not UTF-8 is not drawn, is the font's business. */
  datatype Font = Font(black: Line, paint: (Line, seq<Byte>, nat) -> Line)

  function Top(row: nat): nat {
    MARGIN_TOP + row * ROW_H
  }

  /** Line `y` belongs to the band of `row`. */
  predicate InBand(row: nat, y: nat) {
    Top(row) <= y < Top(row) + ROW_H
  }

  function DrawnLine(font: Font, text: seq<Byte>, dy: nat): Line {
    if text == [] then font.black else font.paint(font.black, text, dy)
  }

  /** Line `y` of a full redraw of the terminal. */
  function Full(font: Font, t: Term, y: nat): Line
    requires Ok(t)
  {
    if Top(0) <= y < Top(ROWS) then DrawnLine(font, Text(t, (y - Top(0)) / ROW_H), (y - Top(0)) % ROW_H)
    else font.black
  }

  /** Line `y` of a picture of the end of the transcript. */
  function Picture(font: Font, d: Doc, y: nat): Line {
    var row := (y - MARGIN_TOP) / ROW_H;
    if Top(0) <= y < Top(ROWS) && row < |Visible(d)| then DrawnLine(font, Visible(d)[row], (y - Top(0)) % ROW_H)
    else font.black
  }

  ghost predicate Agrees(lines: seq<Line>, font: Font, t: Term)
    requires Ok(t)
  {
    |lines| == HEIGHT && forall y | 0 <= y < HEIGHT :: lines[y] == Full(font, t, y)
  }

  lemma BandOf(row: nat, y: nat)
    requires InBand(row, y)
    ensures (y - Top(0)) / ROW_H == row && (y - Top(0)) % ROW_H == y - Top(row)
    ensures row < ROWS ==> Top(0) <= y < Top(ROWS) <= HEIGHT
  {
    assert y - Top(0) == row * ROW_H + (y - Top(row));
  }

  lemma FullInBand(font: Font, t: Term, row: nat, y: nat)
    requires Ok(t) && row < ROWS && InBand(row, y)
    ensures Full(font, t, y) == DrawnLine(font, Text(t, row), y - Top(row))
  {
    BandOf(row, y);
  }

  lemma BandsDisjoint(r: nat, s: nat, y: nat)
    requires InBand(r, y) && InBand(s, y)
    ensures r == s
  {
    BandOf(r, y);
    BandOf(s, y);
  }

  /** A row whose text is the same looks the same. */
  lemma SameLook(font: Font, t: Term, t': Term, y: nat)
    requires Ok(t) && Ok(t')
    requires forall row | 0 <= row < ROWS && InBand(row, y) :: Text(t', row) == Text(t, row)
    ensures Full(font, t', y) == Full(font, t, y)
  {
    if Top(0) <= y < Top(ROWS) {
      var row := (y - Top(0)) / ROW_H;
      assert InBand(row, y);
      FullInBand(font, t, row, y);
      FullInBand(font, t', row, y);
    }
  }

  lemma PictureOf(font: Font, t: Term, d: Doc, y: nat)
    requires Ok(t) && DocOk(d) && Shows(t, d)
    ensures Full(font, t, y) == Picture(font, d, y)
  {
  }

  lemma {:induction false} LogAllAppends(d: Doc, a: seq<Byte>, b: seq<Byte>)
    requires DocOk(d)
    ensures LogAll(d, a + b) == LogAll(LogAll(d, a), b)
    decreases |a|
  {
    if a == [] {
      assert a + b == b;
    } else {
      assert (a + b)[1..] == a[1..] + b;
      LogAllAppends(Log(d, a[0]), a[1..], b);
    }
  }

  function Flatten(batches: seq<seq<Byte>>): seq<Byte> {
    if batches == [] then [] else Flatten(batches[..|batches| - 1]) + batches[|batches| - 1]
  }

  class Lcd {
    const font: Font
    const fb: array<Line>
    const panel: array<Line>

    ghost predicate Valid()
      reads this
    {
      fb.Length == HEIGHT && panel.Length == HEIGHT && fb != panel
    }

    /** Frame buffer and panel show the terminal, and no row is marked. */
    ghost predicate Shown(term: Terminal)
      requires Valid() && term.Valid()
      reads this, fb, panel, term, term.Repr
    {
      && Agrees(fb[..], font, term.V()) && Agrees(panel[..], font, term.V())
      && forall i | 0 <= i < ROWS :: !term.dirty[i]
    }

    /** The screen is cleared and shown before the loop begins. */
    constructor (f: Font)
      ensures Valid() && fresh(fb) && fresh(panel) && font == f
      ensures Agrees(fb[..], font, Start()) && Agrees(panel[..], font, Start())
    {
      font := f;
      fb := new Line[HEIGHT](_ => f.black);
      panel := new Line[HEIGHT](_ => f.black);
    }

    /** Draws the text of a row on top of what its band holds. */
    method DrawText(term: Terminal, row: nat)
      requires Valid() && term.Valid() && {fb, panel} !! term.Repr && row < ROWS
      modifies fb
      ensures forall y | 0 <= y < HEIGHT ::
                fb[y] == if InBand(row, y) then font.paint(old(fb[y]), Text(term.V(), row), y - Top(row))
                         else old(fb[y])
    {
      var top := Top(row);
      BandOf(row, top + ROW_H - 1);
      var text := term.screen[row][..term.lens[row]];
      for dy := 0 to ROW_H
        invariant forall y | 0 <= y < HEIGHT ::
                    fb[y] == if top <= y < top + dy then font.paint(old(fb[y]), text, y - top) else old(fb[y])
      {
        fb[top + dy] := font.paint(fb[top + dy], text, dy);
      }
    }

    /** Erases the band of a row, then draws its text. */
    method RenderRow(term: Terminal, row: nat)
      requires Valid() && term.Valid() && {fb, panel} !! term.Repr && row < ROWS
      modifies fb
      ensures forall y | 0 <= y < HEIGHT ::
                fb[y] == if InBand(row, y) then Full(font, term.V(), y) else old(fb[y])
    {
      BandOf(row, Top(row) + ROW_H - 1);
      forall y | Top(row) <= y < Top(row) + ROW_H {
        fb[y] := font.black;
      }
      if term.lens[row] > 0 {
        DrawText(term, row);
      }
      forall y | 0 <= y < HEIGHT && InBand(row, y) ensures fb[y] == Full(font, term.V(), y) {
        FullInBand(font, term.V(), row, y);
      }
    }

    /** Clears everything, then draws the text of every row that has one. */
    method RenderFull(term: Terminal)
      requires Valid() && term.Valid() && {fb, panel} !! term.Repr
      modifies fb
      ensures Agrees(fb[..], font, term.V())
    {
      forall y | 0 <= y < HEIGHT {
        fb[y] := font.black;
      }
      for row := 0 to ROWS
        invariant forall y | 0 <= y < HEIGHT :: fb[y] == if y < Top(row) then Full(font, term.V(), y) else font.black
      {
        forall y | 0 <= y < HEIGHT && InBand(row, y)
          ensures Full(font, term.V(), y) == DrawnLine(font, Text(term.V(), row), y - Top(row))
        {
          FullInBand(font, term.V(), row, y);
        }
        if term.lens[row] == 0 {
          continue;
        }
        DrawText(term, row);
      }
    }

    method FlushFull()
      requires Valid()
      modifies panel
      ensures panel[..] == fb[..]
    {
      forall y | 0 <= y < HEIGHT {
        panel[y] := fb[y];
      }
    }

    /** The guards never keep a row of the terminal from being sent. */
    method FlushRow(row: nat)
      requires Valid() && row < ROWS
      modifies panel
      ensures forall y | 0 <= y < HEIGHT :: panel[y] == if InBand(row, y) then fb[y] else old(panel[y])
      ensures forall r: nat, y: nat | r < ROWS && r != row && InBand(r, y) :: y < HEIGHT && panel[y] == old(panel[y])
    {
      var start, end := Top(row), Top(row) + ROW_H - 1;
      BandOf(row, end);
      forall r: nat, y: nat | r < ROWS && r != row && InBand(r, y) ensures y < HEIGHT && !InBand(row, y) {
        BandOf(r, y);
        if InBand(row, y) {
          BandsDisjoint(r, row, y);
        }
      }
      if end < HEIGHT && (end + 1) * WIDTH <= WIDTH * HEIGHT {
        forall y | start <= y <= end {
          panel[y] := fb[y];
        }
      }
    }

    /** Redraws and sends the marked rows only. */
    method RedrawRows(term: Terminal, ghost before: Term)
      requires Valid() && term.Valid() && {fb, panel} !! term.Repr
      requires Ok(before) && Agrees(fb[..], font, before) && Agrees(panel[..], font, before)
      requires forall i | 0 <= i < ROWS :: term.dirty[i] || Text(term.V(), i) == Text(before, i)
      modifies fb, panel
      ensures Agrees(fb[..], font, term.V()) && Agrees(panel[..], font, term.V())
    {
      ghost var t := term.V();
      for row := 0 to ROWS
        invariant term.V() == t
        invariant forall y | 0 <= y < HEIGHT :: fb[y] == panel[y]
        invariant forall y | 0 <= y < HEIGHT ::
                    fb[y] == if y < Top(row) then Full(font, t, y) else Full(font, before, y)
      {
        if term.dirty[row] {
          RenderRow(term, row);
          FlushRow(row);
        } else {
          forall y | 0 <= y < HEIGHT && InBand(row, y) ensures Full(font, t, y) == Full(font, before, y) {
            FullInBand(font, t, row, y);
            FullInBand(font, before, row, y);
          }
        }
      }
    }

    /** One pass of the loop over the bytes it took from the ring: afterwards the panel shows the
        terminal as a full redraw would, whether few rows were sent or everything. */
    method Pass(term: Terminal, bytes: seq<Byte>)
      requires Valid() && term.Valid() && {fb, panel} !! term.Repr && Shown(term)
      modifies term.Repr, fb, panel
      ensures term.Valid() && Shown(term)
      ensures term.V() == Clean(FeedAll(old(term.V()), bytes))
    {
      if bytes == [] {
        assert term.V() == Clean(term.V());
        return;
      }
      ghost var before := term.V();
      FeedBytes(term, bytes);
      FeedAllMarks(before, bytes);
      var n := term.DirtyCount();
      if n > ROWS / 2 {
        RenderFull(term);
        FlushFull();
      } else {
        RedrawRows(term, before);
      }
      ghost var after := term.V();
      term.ClearDirty();
      forall y | 0 <= y < HEIGHT ensures Full(font, term.V(), y) == Full(font, after, y) {
        assert forall row | 0 <= row < ROWS :: Text(term.V(), row) == Text(after, row);
        SameLook(font, after, term.V(), y);
      }
    }

    static method FeedBytes(term: Terminal, bytes: seq<Byte>)
      requires term.Valid()
      modifies term.Repr
      ensures term.Valid() && term.V() == FeedAll(old(term.V()), bytes)
    {
      for i := 0 to |bytes|
        invariant term.Valid()
        invariant FeedAll(term.V(), bytes[i..]) == FeedAll(old(term.V()), bytes)
      {
        term.Feed(bytes[i]);
      }
    }

    /** Any number of passes from the start: the panel pictures the end of the transcript of all bytes
        taken so far, however they were batched. */
    method Run(term: Terminal, batches: seq<seq<Byte>>)
      requires Valid() && term.Valid() && {fb, panel} !! term.Repr && Shown(term) && term.V() == Start()
      modifies term.Repr, fb, panel
      ensures forall y | 0 <= y < HEIGHT :: panel[y] == Picture(font, Transcript(batches), y)
    {
      for i := 0 to |batches|
        invariant term.Valid() && Shown(term)
        invariant DocOk(Transcript(batches[..i])) && Shows(term.V(), Transcript(batches[..i]))
      {
        ghost var t := term.V();
        Pass(term, batches[i]);
        PassShows(t, Transcript(batches[..i]), batches[i]);
        NextBatch(batches, i);
      }
      assert batches[..|batches|] == batches;
      Pictures(panel[..], font, term.V(), Transcript(batches));
    }
  }

  /** What was typed in all the batches. */
  function Transcript(batches: seq<seq<Byte>>): (d: Doc)
    ensures DocOk(d)
  {
    LogAll(EmptyDoc(), Flatten(batches))
  }

  lemma Pictures(lines: seq<Line>, font: Font, t: Term, d: Doc)
    requires |lines| == HEIGHT && Ok(t) && DocOk(d) && Agrees(lines, font, t) && Shows(t, d)
    ensures forall y | 0 <= y < HEIGHT :: lines[y] == Picture(font, d, y)
  {
    forall y | 0 <= y < HEIGHT ensures lines[y] == Picture(font, d, y) {
      PictureOf(font, t, d, y);
    }
  }

  lemma PassShows(t: Term, d: Doc, cs: seq<Byte>)
    requires Ok(t) && DocOk(d) && Shows(t, d)
    ensures Ok(Clean(FeedAll(t, cs))) && Shows(Clean(FeedAll(t, cs)), LogAll(d, cs))
  {
    FeedAllShows(t, d, cs);
    CleanShows(FeedAll(t, cs), LogAll(d, cs));
  }

  lemma NextBatch(batches: seq<seq<Byte>>, i: nat)
    requires i < |batches|
    ensures Transcript(batches[..i + 1]) == LogAll(Transcript(batches[..i]), batches[i])
  {
    assert batches[..i + 1][..i] == batches[..i];
    LogAllAppends(EmptyDoc(), Flatten(batches[..i]), batches[i]);
  }

  lemma CleanShows(t: Term, d: Doc)
    requires Ok(t) && DocOk(d) && Shows(t, d)
    ensures Shows(Clean(t), d)
  {
    assert forall i | 0 <= i < ROWS :: Text(Clean(t), i) == Text(t, i);
  }
}
