/** Filling the invoice template for one group: the header cells, one rubric
    row per part (inserting rows when there is more than one part), and the
    totals below the parts, whose formulas are rewritten for their new rows. */
module Layout {
  import opened Text
  import opened FileNames
  import opened Formulas
  import opened FormulaTexts
  import opened Sheet

  /** What the coordinator chose for one generated invoice. */
  datatype Invocation = Invocation(
    course: string,        // the selected course label
    task: string,          // the task name
    mode: Mode,
    group: seq<string>,    // the students the invoice is for
    partLabel: string,     // what a part is called ("Parte", "Ejercicio", ...)
    weights: seq<real>,    // each part's weight, in percent
    names: seq<string>)    // each part's optional name

  /** There is a student, at least one part, and a name slot per part. */
  predicate Valid(inv: Invocation) {
    |inv.group| > 0 && |inv.weights| >= 1 && |inv.names| == |inv.weights|
  }

  // Rows of the template with one part; the totals rows move down by one row
  // per extra part.

  /** The row of part `i` (from 0). */
  function PartRow(i: nat): nat { 9 + i }

  function NetRow(n: nat): nat { 9 + n + 1 }
  function FinalRow(n: nat): nat { 9 + n + 3 }
  function PenaltyWeightsRow(n: nat): nat { 9 + n + 4 }
  function ChecksRow(n: nat): nat { 9 + n + 6 }
  function PenaltySumRow(n: nat): nat { 9 + n + 8 }

  /** Where template row `t` ends up once rows are inserted for `n` parts. */
  function TemplateRow(t: nat, n: nat): nat
    requires n >= 1
  {
    if n > 1 then Moved(Coord(t, ColA), 10, n - 1).row else t
  }

  /** The totals rows computed from the number of parts are the template's
      rows 11, 13, 14, 16 and 18 wherever the insertion moved them. */
  lemma TotalsFollowTemplate(n: nat)
    requires n >= 1
    ensures NetRow(n) == TemplateRow(11, n) && FinalRow(n) == TemplateRow(13, n)
    ensures PenaltyWeightsRow(n) == TemplateRow(14, n) && ChecksRow(n) == TemplateRow(16, n)
    ensures PenaltySumRow(n) == TemplateRow(18, n)
  {
  }

  /** The text in column A of part `i`: `"{kind} {i+1}"`, followed by
      `": {name}"` when the name is not blank. */
  function PartLabel(kind: string, i: nat, name: string): string {
    kind + " " + Decimal(i + 1) + (if Strip(name) != [] then ": " + name else "")
  }

  /** The label starts with the part's kind and number, counting from 1, and
      carries the name exactly when the name is not blank. */
  lemma {:induction false} PartLabelSpec(kind: string, i: nat, name: string)
    ensures var head := kind + " " + Decimal(i + 1);
      var r := PartLabel(kind, i, name);
      |head| <= |r| && r[..|head|] == head &&
      ParseDecimal(r[|kind| + 1..|head|]) == i + 1 &&
      (Strip(name) != [] <==> |r| > |head|) &&
      (|r| > |head| ==> r[|head|..] == ": " + name)
  {
    var head := kind + " " + Decimal(i + 1);
    var r := PartLabel(kind, i, name);
    assert r[..|head|] == head;
    assert r[|kind| + 1..|head|] == Decimal(i + 1);
    DecimalRoundTrip(i + 1);
  }

  // ---- The steps of the generation, as functions of the worksheet ----

  const B2 := Coord(2, ColB)
  const B3 := Coord(3, ColB)
  const A5 := Coord(5, ColA)
  const B5 := Coord(5, ColB)
  const D11 := Coord(11, ColD)

  /** Step 1: course, task, and the student heading and names. */
  function Headers(s: State, inv: Invocation): State
    requires |inv.group| > 0
  {
    var s1 := WithValue(s, B2, Assigned(inv.course));
    var s2 := WithValue(s1, B3, Assigned(inv.task));
    var s3 := WithValue(s2, A5, Assigned(StudentHeading(inv.mode)));
    WithValue(s3, B5, Assigned(StudentNames(inv.mode, inv.group)))
  }

  /** `try: ws.unmerge_cells(r) except: pass`. */
  function UnmergeIfMerged(s: State, r: Range): State {
    if r in s.merges then Unmerged(s, r) else s
  }

  /** The template's `D10:H10`, `D11:H11`, ... up to row `9 + k` unmerged. */
  function TemplateRowsUnmerged(s: State, k: nat): State {
    if k == 0 then s else UnmergeIfMerged(TemplateRowsUnmerged(s, k - 1), DToH(9 + k))
  }

  /** The merges the cleanup removes: those starting in rows 9 to `9 + n`. */
  function Stale(s: State, n: nat): set<Range> {
    set m | m in s.merges && 9 <= m.minRow <= 9 + n
  }

  /** Some range of `rs` covers `c` without starting there: unmerging it deletes `c`. */
  predicate Swallowed(c: Coord, rs: set<Range>) {
    exists r :: r in rs && InRange(c, r) && c != Coord(r.minRow, r.minCol)
  }

  /** The worksheet once every range of `done` has been unmerged. */
  function Swept(s: State, done: set<Range>): State {
    State(map c | c in s.cells && !Swallowed(c, done) :: s.cells[c], s.merges - done)
  }

  /** Unmerging one more range extends the sweep by that range. */
  lemma {:induction false} SweepStep(s: State, done: set<Range>, r: Range)
    requires r in s.merges && r !in done
    ensures r in Swept(s, done).merges
    ensures Unmerged(Swept(s, done), r) == Swept(s, done + {r})
  {
    var a := Unmerged(Swept(s, done), r);
    var b := Swept(s, done + {r});
    assert a.cells.Keys == b.cells.Keys by {
      forall c | c in a.cells ensures c in b.cells {
        forall q | q in done + {r} ensures !(InRange(c, q) && c != Coord(q.minRow, q.minCol)) {
        }
      }
      forall c | c in b.cells ensures c in a.cells {
      }
    }
  }

  /** Step 2 with more than one part: unmerge the template's rows 10 to 12,
      insert `n - 1` rows at row 10, then unmerge every range still starting
      in rows 9 to `9 + n` (the insertion leaves merges where they were). */
  function Prepared(s: State, n: nat): State {
    if n > 1 then
      var t := RowsInserted(TemplateRowsUnmerged(s, 3), 10, n - 1);
      Swept(t, Stale(t, n))
    else s
  }

  /** The column A texts of all parts, in order. */
  function PartLabels(inv: Invocation): (r: seq<string>)
    requires |inv.names| == |inv.weights|
    ensures |r| == |inv.weights|
    ensures forall i :: 0 <= i < |r| ==> r[i] == PartLabel(inv.partLabel, i, inv.names[i])
  {
    seq(|inv.weights|, i requires 0 <= i < |inv.weights| => PartLabel(inv.partLabel, i, inv.names[i]))
  }

  /** Step 2, one row per part: label, weight and score; rows after the
      first take row 9's format in columns A to K. */
  function PartsWritten(s: State, labels: seq<string>, weights: seq<real>, k: nat): State
    requires k <= |weights| && |labels| == |weights|
  {
    if k == 0 then s else PartWritten(PartsWritten(s, labels, weights, k - 1), labels[k - 1], weights[k - 1], k - 1)
  }

  /** Part `i`'s row. The score formula text is stored as a formula
      (`ScoreIsFormula`). */
  function PartWritten(s: State, text: string, weight: real, i: nat): State {
    var row := PartRow(i);
    var s1 := WithValue(s, Coord(row, ColA), Assigned(text));
    var s2 := WithValue(s1, Coord(row, ColB), Number(weight));
    var s3 := WithValue(s2, Coord(row, ColJ), Formula(ScoreFormula(row)));
    if i > 0 then RowFormatCopied(s3, row, ColK) else s3
  }

  /** The formula texts the generator writes start with `=` and are longer
      than one character, so openpyxl stores each of them as a formula: the
      score of row `r`, and the three totals for `n` parts. */
  lemma ScoreIsFormula(r: nat)
    ensures Assigned(ScoreFormula(r)) == Formula(ScoreFormula(r))
  {
    assert ScoreFormula(r)[..2] == "=(";
  }

  lemma TotalsAreFormulas(n: nat)
    ensures Assigned(NetFormula(NetRow(n))) == Formula(NetFormula(NetRow(n)))
    ensures Assigned(PenaltyFormula(ChecksRow(n), PenaltyWeightsRow(n)))
         == Formula(PenaltyFormula(ChecksRow(n), PenaltyWeightsRow(n)))
    ensures Assigned(FinalFormula(NetRow(n), PenaltySumRow(n))) == Formula(FinalFormula(NetRow(n), PenaltySumRow(n)))
  {
    assert NetFormula(NetRow(n))[..2] == "=S";
    assert PenaltyFormula(ChecksRow(n), PenaltyWeightsRow(n))[0] == '=';
    assert |Products(PenaltyFactors(ChecksRow(n), PenaltyWeightsRow(n)))| > 0;
    assert FinalFormula(NetRow(n), PenaltySumRow(n))[0] == '=';
    assert |RefText(Rel("J", NetRow(n)))| > 0;
  }

  /** Row 9's format copied onto `row` in columns 1 to `k`. */
  function RowFormatCopied(s: State, row: nat, k: nat): State {
    if k == 0 then s else FormatCopied(RowFormatCopied(s, row, k - 1), Coord(9, k), Coord(row, k))
  }

  /** Step 3: merge and align the net grade row and rewrite the three
      formulas that refer to moved rows (stored as formulas, by
      `TotalsAreFormulas`). */
  function Totals(s: State, n: nat, align: nat): State {
    var net := NetRow(n);
    var s1 := WithAlignment(Merged(s, DToH(net)), Coord(net, ColD), align);
    var s2 := WithValue(s1, Coord(net, ColJ), Formula(NetFormula(net)));
    var s3 := WithValue(s2, Coord(PenaltySumRow(n), ColF), Formula(PenaltyFormula(ChecksRow(n), PenaltyWeightsRow(n))));
    WithValue(s3, Coord(FinalRow(n), ColJ), Formula(FinalFormula(net, PenaltySumRow(n))))
  }

  /** The whole invoice sheet produced from the template `s`. */
  function Rendered(s: State, inv: Invocation): State
    requires Valid(inv)
  {
    var n := |inv.weights|;
    var s1 := Headers(s, inv);
    var align := At(s1, D11).style.alignment;
    Totals(PartsWritten(Prepared(s1, n), PartLabels(inv), inv.weights, n), n, align)
  }

  /** Fills the loaded template `ws` for one group, step by step as the
      generator does. */
  method Render(ws: Worksheet, inv: Invocation)
    requires Valid(inv)
    modifies ws
    ensures ws.Contents() == Rendered(old(ws.Contents()), inv)
  {
    var n := |inv.weights|;
    // 1. Headers.
    ws.SetValue(B2, Assigned(inv.course));
    ws.SetValue(B3, Assigned(inv.task));
    ws.SetValue(A5, Assigned(StudentHeading(inv.mode)));
    ws.SetValue(B5, Assigned(StudentNames(inv.mode, inv.group)));
    var align := At(ws.Contents(), D11).style.alignment;
    // 2. Rows for the parts.
    if n > 1 {
      MakeRoom(ws, n);
    }
    WriteParts(ws, inv);
    // 3. Totals.
    WriteTotals(ws, n, align);
  }

  /** Unmerges the template's rows 10 to 12, inserts a row per extra part
      and removes the merges left behind in the part rows. */
  method MakeRoom(ws: Worksheet, n: nat)
    requires n > 1
    modifies ws
    ensures ws.Contents() == Prepared(old(ws.Contents()), n)
  {
    UnmergeTemplateRows(ws);
    ws.InsertRows(10, n - 1);
    var stale := CollectStale(ws, n);
    SweepStale(ws, stale);
  }

  /** `try: ws.unmerge_cells(f'D{r}:H{r}') except: pass` for rows 10 to 12. */
  method UnmergeTemplateRows(ws: Worksheet)
    modifies ws
    ensures ws.Contents() == TemplateRowsUnmerged(old(ws.Contents()), 3)
  {
    ghost var s := ws.Contents();
    for k := 0 to 3
      invariant ws.Contents() == TemplateRowsUnmerged(s, k)
    {
      var _ := ws.UnmergeCells(DToH(10 + k));
    }
  }

  /** Unmerges every range of `stale`, one at a time, in any order. */
  method SweepStale(ws: Worksheet, stale: set<Range>)
    requires stale <= ws.merges
    modifies ws
    ensures ws.Contents() == Swept(old(ws.Contents()), stale)
  {
    ghost var t := ws.Contents();
    var pending := stale;
    while pending != {}
      invariant pending <= stale
      invariant ws.Contents() == Swept(t, stale - pending)
      decreases pending
    {
      var m :| m in pending;
      SweepStep(t, stale - pending, m);
      var _ := ws.UnmergeCells(m);
      assert stale - (pending - {m}) == (stale - pending) + {m};
      pending := pending - {m};
    }
    assert stale - pending == stale;
  }

  /** The merges starting in rows 9 to `9 + n`, gathered one by one. */
  method CollectStale(ws: Worksheet, n: nat) returns (stale: set<Range>)
    ensures stale == Stale(ws.Contents(), n)
  {
    stale := {};
    var rest := ws.merges;
    while rest != {}
      invariant rest <= ws.merges
      invariant stale == set m | m in ws.merges - rest && 9 <= m.minRow <= 9 + n
      decreases rest
    {
      var m :| m in rest;
      if 9 <= m.minRow <= 9 + n {
        stale := stale + {m};
      }
      rest := rest - {m};
    }
  }

  /** Writes every part's row. */
  method WriteParts(ws: Worksheet, inv: Invocation)
    requires Valid(inv)
    modifies ws
    ensures ws.Contents() == PartsWritten(old(ws.Contents()), PartLabels(inv), inv.weights, |inv.weights|)
  {
    ghost var s := ws.Contents();
    ghost var labels := PartLabels(inv);
    for i := 0 to |inv.weights|
      invariant ws.Contents() == PartsWritten(s, labels, inv.weights, i)
    {
      WritePart(ws, inv.partLabel, inv.names[i], inv.weights[i], i);
    }
  }

  /** Part `i`'s row: its label, its weight and its score formula, and row
      9's format when it is not the first part. */
  method WritePart(ws: Worksheet, kind: string, name: string, weight: real, i: nat)
    modifies ws
    ensures ws.Contents() == PartWritten(old(ws.Contents()), PartLabel(kind, i, name), weight, i)
  {
    var row := PartRow(i);
    var text := kind + " " + Decimal(i + 1);
    if Strip(name) != [] {
      text := text + (": " + name);
    } else {
      assert text + "" == text;
    }
    assert text == PartLabel(kind, i, name);
    ws.SetValue(Coord(row, ColA), Assigned(text));
    ws.SetValue(Coord(row, ColB), Number(weight));
    ScoreIsFormula(row);
    ws.SetValue(Coord(row, ColJ), Assigned(ScoreFormula(row)));
    if i > 0 {
      CopyRowFormat(ws, row);
    }
  }

  /** Copies row 9's format onto `row`, column by column from A to K. */
  method CopyRowFormat(ws: Worksheet, row: nat)
    modifies ws
    ensures ws.Contents() == RowFormatCopied(old(ws.Contents()), row, ColK)
  {
    ghost var s := ws.Contents();
    for col := 1 to ColK + 1
      invariant ws.Contents() == RowFormatCopied(s, row, col - 1)
    {
      ws.CopyFormat(Coord(9, col), Coord(row, col));
    }
  }

  /** Merges and aligns the net grade row and writes the three formulas. */
  method WriteTotals(ws: Worksheet, n: nat, align: nat)
    modifies ws
    ensures ws.Contents() == Totals(old(ws.Contents()), n, align)
  {
    var net := NetRow(n);
    ws.MergeCells(DToH(net));
    ws.SetAlignment(Coord(net, ColD), align);
    TotalsAreFormulas(n);
    ws.SetValue(Coord(net, ColJ), Assigned(NetFormula(net)));
    ws.SetValue(Coord(PenaltySumRow(n), ColF), Assigned(PenaltyFormula(ChecksRow(n), PenaltyWeightsRow(n))));
    ws.SetValue(Coord(FinalRow(n), ColJ), Assigned(FinalFormula(net, PenaltySumRow(n))));
  }
}
