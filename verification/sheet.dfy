/** The part of a spreadsheet worksheet the invoice generator touches: cell
    values, cell styles and merged ranges, with the operations it calls and
    `copiar_formato`, which copies one cell's look onto another. */
module Sheet {

  /** A cell position; columns are numbered from 1 (A = 1, B = 2, ...). */
  datatype Coord = Coord(row: nat, col: nat)

  const ColA: nat := 1
  const ColB: nat := 2
  const ColD: nat := 4
  const ColF: nat := 6
  const ColH: nat := 8
  const ColJ: nat := 10
  /** The last column of the rubric rows (K). */
  const ColK: nat := 11

  /** What a cell holds. */
  datatype Value = Empty | Str(text: string) | Number(x: real) | Formula(source: string)

  /** What `ws[c] = t` stores for a string `t`: a text of two or more
      characters that starts with `=` is kept as a formula. */
  function Assigned(t: string): Value {
    if |t| > 1 && t[0] == '=' then Formula(t) else Str(t)
  }

  /** A cell's style. Fonts, borders, fills, alignments and protections are
      shared style objects, identified here by an index; 0 is the default. */
  datatype Style = Style(font: nat, border: nat, fill: nat, numberFormat: string, alignment: nat, protection: nat)

  const DefaultStyle := Style(0, 0, 0, "General", 0, 0)

  /** `cell.has_style`: the cell uses some style other than the default one. */
  predicate HasStyle(s: Style) { s != DefaultStyle }

  datatype Cell = Cell(value: Value, style: Style)

  /** The cell read at a position nobody has written. */
  const Blank := Cell(Empty, DefaultStyle)

  /** A rectangular range such as `D11:H11`. */
  datatype Range = Range(minRow: nat, minCol: nat, maxRow: nat, maxCol: nat)

  predicate InRange(c: Coord, r: Range) {
    r.minRow <= c.row <= r.maxRow && r.minCol <= c.col <= r.maxCol
  }

  /** `D{row}:H{row}`. */
  function DToH(row: nat): Range { Range(row, ColD, row, ColH) }

  /** The abstract value of a worksheet: its stored cells and its merged ranges. */
  datatype State = State(cells: map<Coord, Cell>, merges: set<Range>)

  /** `ws.cell(row, col)` as read: a stored cell, or a blank one. */
  function At(s: State, c: Coord): Cell {
    if c in s.cells then s.cells[c] else Blank
  }

  /** `ws[c] = v`: the value changes, the style stays. */
  function WithValue(s: State, c: Coord, v: Value): State {
    State(s.cells[c := Cell(v, At(s, c).style)], s.merges)
  }

  lemma WithValueAt(s: State, c: Coord, v: Value, d: Coord)
    ensures At(WithValue(s, c, v), d) == if d == c then Cell(v, At(s, c).style) else At(s, d)
    ensures WithValue(s, c, v).merges == s.merges
  {
  }

  /** `ws[c].alignment = a`. */
  function WithAlignment(s: State, c: Coord, a: nat): State {
    var cell := At(s, c);
    State(s.cells[c := Cell(cell.value, cell.style.(alignment := a))], s.merges)
  }

  lemma WithAlignmentAt(s: State, c: Coord, a: nat, d: Coord)
    ensures At(WithAlignment(s, c, a), d)
         == if d == c then Cell(At(s, c).value, At(s, c).style.(alignment := a)) else At(s, d)
    ensures WithAlignment(s, c, a).merges == s.merges
  {
  }

  /** The style `copiar_formato` gives the destination: font, border, fill,
      number format and alignment of the source when the source has a style
      of its own; the destination's protection is kept. */
  function CopiedStyle(src: Style, dst: Style): Style {
    if HasStyle(src) then src.(protection := dst.protection) else dst
  }

  /** Two styles look alike: they agree on everything but protection. */
  predicate SameLook(a: Style, b: Style) {
    a.font == b.font && a.border == b.border && a.fill == b.fill &&
    a.numberFormat == b.numberFormat && a.alignment == b.alignment
  }

  /** A styled source is copied look for look, and the destination keeps its
      protection; an unstyled source changes nothing. Copying twice is
      copying once. */
  lemma CopiedStyleSpec(src: Style, dst: Style)
    ensures HasStyle(src) ==> SameLook(CopiedStyle(src, dst), src)
    ensures CopiedStyle(src, dst).protection == dst.protection
    ensures !HasStyle(src) ==> CopiedStyle(src, dst) == dst
    ensures CopiedStyle(src, CopiedStyle(src, dst)) == CopiedStyle(src, dst)
  {
  }

  /** `copiar_formato(ws[src], ws[dst])`. */
  function FormatCopied(s: State, src: Coord, dst: Coord): State {
    var from := At(s, src).style;
    if HasStyle(from) then
      var to := At(s, dst);
      State(s.cells[dst := Cell(to.value, CopiedStyle(from, to.style))], s.merges)
    else s
  }

  /** Copying a format touches the destination's style only. */
  lemma FormatCopiedAt(s: State, src: Coord, dst: Coord, d: Coord)
    ensures At(FormatCopied(s, src, dst), d)
         == if d == dst then Cell(At(s, d).value, CopiedStyle(At(s, src).style, At(s, d).style)) else At(s, d)
    ensures FormatCopied(s, src, dst).merges == s.merges
  {
  }

  /** `ws.merge_cells(r)`. */
  function Merged(s: State, r: Range): State {
    State(s.cells, s.merges + {r})
  }

  /** `ws.unmerge_cells(r)` on a merged range: the range is no longer merged
      and the cells it covered, except its top-left one, are deleted. */
  function Unmerged(s: State, r: Range): State {
    var anchor := Coord(r.minRow, r.minCol);
    State(map c | c in s.cells && (c == anchor || !InRange(c, r)) :: s.cells[c], s.merges - {r})
  }

  lemma UnmergedAt(s: State, r: Range, d: Coord)
    ensures At(Unmerged(s, r), d) == if InRange(d, r) && d != Coord(r.minRow, r.minCol) then Blank else At(s, d)
    ensures Unmerged(s, r).merges == s.merges - {r}
  {
  }

  /** Where `insert_rows(idx, amount)` moves a cell. */
  function Moved(c: Coord, idx: nat, amount: nat): Coord {
    if c.row >= idx then Coord(c.row + amount, c.col) else c
  }

  /** `ws.insert_rows(idx, amount)`: every cell at row `idx` or below moves
      down `amount` rows; the merged ranges stay where they were. */
  function RowsInserted(s: State, idx: nat, amount: nat): State {
    State(map c | c in s.cells :: Moved(c, idx, amount) := s.cells[c], s.merges)
  }

  /** After inserting, rows above `idx` are unchanged, the `amount` rows from
      `idx` on are blank, and every later row holds what was `amount` rows higher. */
  lemma RowsInsertedAt(s: State, idx: nat, amount: nat, d: Coord)
    ensures At(RowsInserted(s, idx, amount), d)
         == if d.row < idx then At(s, d)
            else if d.row < idx + amount then Blank
            else At(s, Coord(d.row - amount, d.col))
    ensures RowsInserted(s, idx, amount).merges == s.merges
  {
    var t := RowsInserted(s, idx, amount);
    if d.row < idx {
      assert d in t.cells <==> d in s.cells by {
        if d in t.cells {
          var c :| c in s.cells && Moved(c, idx, amount) == d;
        } else {
          assert d in s.cells ==> Moved(d, idx, amount) in t.cells;
        }
      }
    } else if d.row < idx + amount {
      assert forall c :: c in s.cells ==> Moved(c, idx, amount) != d;
      assert d !in t.cells;
    } else {
      var c := Coord(d.row - amount, d.col);
      assert Moved(c, idx, amount) == d;
      assert d in t.cells <==> c in s.cells by {
        if d in t.cells {
          var c' :| c' in s.cells && Moved(c', idx, amount) == d;
        }
      }
    }
  }

  /** An openpyxl worksheet, reduced to what the generator uses. */
  class Worksheet {
    var cells: map<Coord, Cell>
    var merges: set<Range>

    function Contents(): State
      reads this
    {
      State(cells, merges)
    }

    /** `ws[c] = v`. */
    method SetValue(c: Coord, v: Value)
      modifies this
      ensures Contents() == WithValue(old(Contents()), c, v)
    {
      var style := At(Contents(), c).style;
      cells := cells[c := Cell(v, style)];
    }

    /** `ws[c].alignment = a`. */
    method SetAlignment(c: Coord, a: nat)
      modifies this
      ensures Contents() == WithAlignment(old(Contents()), c, a)
    {
      var cell := At(Contents(), c);
      cells := cells[c := Cell(cell.value, cell.style.(alignment := a))];
    }

    /** `copiar_formato(ws[src], ws[dst])`: when the source cell has a style,
        its font, border, fill, number format and alignment are copied onto
        the destination cell. */
    method CopyFormat(src: Coord, dst: Coord)
      modifies this
      ensures Contents() == FormatCopied(old(Contents()), src, dst)
    {
      var from := At(Contents(), src).style;
      if HasStyle(from) {
        var to := At(Contents(), dst);
        cells := cells[dst := Cell(to.value, CopiedStyle(from, to.style))];
      }
    }

    /** `ws.merge_cells(r)`. */
    method MergeCells(r: Range)
      modifies this
      ensures Contents() == Merged(old(Contents()), r)
    {
      merges := merges + {r};
    }

    /** `ws.unmerge_cells(r)`; `ok` is false where openpyxl raises because
        the range is not merged, and then nothing changes. */
    method UnmergeCells(r: Range) returns (ok: bool)
      modifies this
      ensures ok == (r in old(merges))
      ensures Contents() == if ok then Unmerged(old(Contents()), r) else old(Contents())
    {
      ok := r in merges;
      if ok {
        cells := Unmerged(Contents(), r).cells;
        merges := merges - {r};
      }
    }

    /** `ws.insert_rows(idx, amount)`. */
    method InsertRows(idx: nat, amount: nat)
      modifies this
      ensures Contents() == RowsInserted(old(Contents()), idx, amount)
    {
      cells := RowsInserted(Contents(), idx, amount).cells;
    }
  }
}
