/** What a rendered invoice sheet holds, cell by cell and merge by merge,
    derived from the steps `Layout.Rendered` is made of. */
module RenderedSheet {
  import opened FileNames
  import opened Formulas
  import opened FormulaTexts
  import opened Sheet
  import opened Layout

  // ---- One step at a time ----

  /** The header step writes B2, B3, A5 and B5 and keeps every style. */
  lemma HeadersAt(s: State, inv: Invocation, d: Coord)
    requires |inv.group| > 0
    ensures At(Headers(s, inv), d).style == At(s, d).style
    ensures At(Headers(s, inv), d).value
         == if d == B2 then Assigned(inv.course)
            else if d == B3 then Assigned(inv.task)
            else if d == A5 then Assigned(StudentHeading(inv.mode))
            else if d == B5 then Assigned(StudentNames(inv.mode, inv.group))
            else At(s, d).value
  {
    var s1 := WithValue(s, B2, Assigned(inv.course));
    var s2 := WithValue(s1, B3, Assigned(inv.task));
    var s3 := WithValue(s2, A5, Assigned(StudentHeading(inv.mode)));
    WithValueAt(s, B2, Assigned(inv.course), d);
    WithValueAt(s1, B3, Assigned(inv.task), d);
    WithValueAt(s2, A5, Assigned(StudentHeading(inv.mode)), d);
    WithValueAt(s3, B5, Assigned(StudentNames(inv.mode, inv.group)), d);
  }

  lemma HeadersMerges(s: State, inv: Invocation)
    requires |inv.group| > 0
    ensures Headers(s, inv).merges == s.merges
  {
  }

  /** The header step leaves every cell but its four alone. */
  lemma HeadersKeep(s: State, inv: Invocation, d: Coord)
    requires |inv.group| > 0 && d != B2 && d != B3 && d != A5 && d != B5
    ensures At(Headers(s, inv), d) == At(s, d)
  {
    HeadersAt(s, inv, d);
  }

  /** `m` is one of the template's net-grade ranges `D10:H10` .. `D{9+k}:H{9+k}`. */
  predicate TemplateNetRange(m: Range, k: nat) {
    10 <= m.minRow <= 9 + k && m == DToH(m.minRow)
  }

  /** Unmerging the template's rows 10 to `9 + k` removes exactly those
      ranges, and blanks the cells E to H of each of those rows that was merged. */
  lemma {:induction false} TemplateRowsUnmergedAt(s: State, k: nat, d: Coord, m: Range)
    ensures m in TemplateRowsUnmerged(s, k).merges <==> m in s.merges && !TemplateNetRange(m, k)
    ensures At(TemplateRowsUnmerged(s, k), d)
         == if 10 <= d.row <= 9 + k && ColD < d.col <= ColH && DToH(d.row) in s.merges then Blank
            else At(s, d)
  {
    if k > 0 {
      var t := TemplateRowsUnmerged(s, k - 1);
      var r := DToH(9 + k);
      TemplateRowsUnmergedAt(s, k - 1, d, m);
      TemplateRowsUnmergedAt(s, k - 1, d, r);
      assert r in t.merges <==> r in s.merges;
      if r in t.merges {
        UnmergedAt(t, r, d);
      }
    }
  }

  lemma SweptAt(s: State, done: set<Range>, d: Coord)
    ensures At(Swept(s, done), d) == if Swallowed(d, done) then Blank else At(s, d)
    ensures Swept(s, done).merges == s.merges - done
  {
  }

  /** With more than one part: above row 10 the template stays, rows 10 to
      `8 + n` are new and blank, later rows hold the unmerged template moved
      down `n - 1` rows; a cell covered, but not anchored, by a merge starting
      in rows 9 to `9 + n` is cleared, and those merges are gone. */
  lemma {:induction false} PreparedAt(s: State, n: nat, d: Coord)
    requires n > 1
    ensures At(Prepared(s, n), d)
         == if Swallowed(d, Stale(TemplateRowsUnmerged(s, 3), n)) then Blank
            else if d.row < 10 then At(s, d)
            else if d.row < 9 + n then Blank
            else At(TemplateRowsUnmerged(s, 3), Coord(d.row - (n - 1), d.col))
  {
    var u := TemplateRowsUnmerged(s, 3);
    var t := RowsInserted(u, 10, n - 1);
    RowsInsertedAt(u, 10, n - 1, d);
    assert Stale(t, n) == Stale(u, n);
    SweptAt(t, Stale(u, n), d);
    TemplateRowsUnmergedAt(s, 3, d, DToH(9));
  }

  lemma {:induction false} PreparedMerges(s: State, n: nat, m: Range)
    requires n > 1
    ensures m in Prepared(s, n).merges <==> m in s.merges && !TemplateNetRange(m, 3) && !(9 <= m.minRow <= 9 + n)
  {
    var u := TemplateRowsUnmerged(s, 3);
    var t := RowsInserted(u, 10, n - 1);
    RowsInsertedAt(u, 10, n - 1, B2);
    assert Stale(t, n) == Stale(u, n);
    SweptAt(t, Stale(u, n), B2);
    TemplateRowsUnmergedAt(s, 3, B2, m);
  }

  /** Copying row 9's format onto another row touches that row's styles in
      columns 1 to `k` and nothing else. */
  lemma {:induction false} RowFormatCopiedAt(s: State, row: nat, k: nat, d: Coord)
    requires row != 9
    ensures At(RowFormatCopied(s, row, k), d)
         == if d.row == row && 1 <= d.col <= k
            then Cell(At(s, d).value, CopiedStyle(At(s, Coord(9, d.col)).style, At(s, d).style))
            else At(s, d)
  {
    if k > 0 {
      var t := RowFormatCopied(s, row, k - 1);
      RowFormatCopiedAt(s, row, k - 1, d);
      RowFormatCopiedAt(s, row, k - 1, Coord(9, k));
      FormatCopiedAt(t, Coord(9, k), Coord(row, k), d);
    }
  }

  lemma {:induction false} RowFormatCopiedMerges(s: State, row: nat, k: nat)
    ensures RowFormatCopied(s, row, k).merges == s.merges
  {
    if k > 0 {
      RowFormatCopiedMerges(s, row, k - 1);
    }
  }

  lemma PartWrittenMerges(s: State, text: string, weight: real, i: nat)
    ensures PartWritten(s, text, weight, i).merges == s.merges
  {
    var row := PartRow(i);
    var s1 := WithValue(s, Coord(row, ColA), Assigned(text));
    var s2 := WithValue(s1, Coord(row, ColB), Number(weight));
    var s3 := WithValue(s2, Coord(row, ColJ), Formula(ScoreFormula(row)));
    RowFormatCopiedMerges(s3, row, ColK);
  }

  /** The cell a part row holds once written, from the cell `c` it held
      before and the style `nine` of row 9 in the same column. */
  function PartCell(labels: seq<string>, weights: seq<real>, d: Coord, c: Cell, nine: Style): Cell
    requires |labels| == |weights| && 9 <= d.row < 9 + |weights|
  {
    var i := d.row - 9;
    Cell(if d.col == ColA then Assigned(labels[i])
         else if d.col == ColB then Number(weights[i])
         else if d.col == ColJ then Formula(ScoreFormula(d.row))
         else c.value,
         if i > 0 && 1 <= d.col <= ColK then CopiedStyle(nine, c.style) else c.style)
  }

  lemma PartWrittenAt(s: State, labels: seq<string>, weights: seq<real>, i: nat, d: Coord)
    requires |labels| == |weights| && i < |weights|
    ensures At(PartWritten(s, labels[i], weights[i], i), d)
         == if d.row == PartRow(i) then PartCell(labels, weights, d, At(s, d), At(s, Coord(9, d.col)).style)
            else At(s, d)
  {
    var row := PartRow(i);
    var s1 := WithValue(s, Coord(row, ColA), Assigned(labels[i]));
    var s2 := WithValue(s1, Coord(row, ColB), Number(weights[i]));
    var s3 := WithValue(s2, Coord(row, ColJ), Formula(ScoreFormula(row)));
    WithValueAt(s, Coord(row, ColA), Assigned(labels[i]), d);
    WithValueAt(s1, Coord(row, ColB), Number(weights[i]), d);
    WithValueAt(s2, Coord(row, ColJ), Formula(ScoreFormula(row)), d);
    if i > 0 {
      var nine := Coord(9, d.col);
      WithValueAt(s, Coord(row, ColA), Assigned(labels[i]), nine);
      WithValueAt(s1, Coord(row, ColB), Number(weights[i]), nine);
      WithValueAt(s2, Coord(row, ColJ), Formula(ScoreFormula(row)), nine);
      RowFormatCopiedAt(s3, row, ColK, d);
    }
  }

  /** Writing part `i` leaves every other row alone. */
  lemma PartWrittenKeeps(s: State, text: string, weight: real, i: nat, d: Coord)
    requires d.row != PartRow(i)
    ensures At(PartWritten(s, text, weight, i), d) == At(s, d)
  {
    var row := PartRow(i);
    var s1 := WithValue(s, Coord(row, ColA), Assigned(text));
    var s2 := WithValue(s1, Coord(row, ColB), Number(weight));
    var s3 := WithValue(s2, Coord(row, ColJ), Formula(ScoreFormula(row)));
    WithValueAt(s, Coord(row, ColA), Assigned(text), d);
    WithValueAt(s1, Coord(row, ColB), Number(weight), d);
    WithValueAt(s2, Coord(row, ColJ), Formula(ScoreFormula(row)), d);
    if i > 0 {
      RowFormatCopiedAt(s3, row, ColK, d);
    }
  }

  /** After writing the first `k` parts, their rows hold their labels,
      weights and score formulas, and the rows after the first carry row 9's
      format; row 9's styles are the ones it had before. */
  lemma {:induction false} PartsWrittenAt(s: State, labels: seq<string>, weights: seq<real>, k: nat, d: Coord)
    requires |labels| == |weights| && k <= |weights|
    ensures At(PartsWritten(s, labels, weights, k), d)
         == if 9 <= d.row < 9 + k then PartCell(labels, weights, d, At(s, d), At(s, Coord(9, d.col)).style)
            else At(s, d)
  {
    if k > 0 {
      var t := PartsWritten(s, labels, weights, k - 1);
      PartsWrittenAt(s, labels, weights, k - 1, d);
      PartsWrittenAt(s, labels, weights, k - 1, Coord(9, d.col));
      PartWrittenAt(t, labels, weights, k - 1, d);
    }
  }

  lemma {:induction false} PartsWrittenMerges(s: State, labels: seq<string>, weights: seq<real>, k: nat)
    requires |labels| == |weights| && k <= |weights|
    ensures PartsWritten(s, labels, weights, k).merges == s.merges
  {
    if k > 0 {
      PartsWrittenMerges(s, labels, weights, k - 1);
      PartWrittenMerges(PartsWritten(s, labels, weights, k - 1), labels[k - 1], weights[k - 1], k - 1);
    }
  }

  /** Writing the parts leaves the rows outside 9 to `8 + k` alone. */
  lemma {:induction false} PartsWrittenKeeps(s: State, labels: seq<string>, weights: seq<real>, k: nat, d: Coord)
    requires |labels| == |weights| && k <= |weights| && !(9 <= d.row < 9 + k)
    ensures At(PartsWritten(s, labels, weights, k), d) == At(s, d)
  {
    if k > 0 {
      PartsWrittenKeeps(s, labels, weights, k - 1, d);
      PartWrittenKeeps(PartsWritten(s, labels, weights, k - 1), labels[k - 1], weights[k - 1], k - 1, d);
    }
  }

  /** The totals step merges `D{net}:H{net}`, sets `D{net}`'s alignment and
      writes the three formulas; every other cell stays. */
  lemma TotalsAt(s: State, n: nat, align: nat, d: Coord)
    ensures At(Totals(s, n, align), d)
         == if d == Coord(NetRow(n), ColJ) then Cell(Formula(NetFormula(NetRow(n))), At(s, d).style)
            else if d == Coord(PenaltySumRow(n), ColF)
            then Cell(Formula(PenaltyFormula(ChecksRow(n), PenaltyWeightsRow(n))), At(s, d).style)
            else if d == Coord(FinalRow(n), ColJ)
            then Cell(Formula(FinalFormula(NetRow(n), PenaltySumRow(n))), At(s, d).style)
            else if d == Coord(NetRow(n), ColD) then Cell(At(s, d).value, At(s, d).style.(alignment := align))
            else At(s, d)
  {
    var net := NetRow(n);
    var s0 := Merged(s, DToH(net));
    var s1 := WithAlignment(s0, Coord(net, ColD), align);
    var s2 := WithValue(s1, Coord(net, ColJ), Formula(NetFormula(net)));
    var s3 := WithValue(s2, Coord(PenaltySumRow(n), ColF), Formula(PenaltyFormula(ChecksRow(n), PenaltyWeightsRow(n))));
    WithAlignmentAt(s0, Coord(net, ColD), align, d);
    WithValueAt(s1, Coord(net, ColJ), Formula(NetFormula(net)), d);
    WithValueAt(s2, Coord(PenaltySumRow(n), ColF), Formula(PenaltyFormula(ChecksRow(n), PenaltyWeightsRow(n))), d);
    WithValueAt(s3, Coord(FinalRow(n), ColJ), Formula(FinalFormula(net, PenaltySumRow(n))), d);
  }

  lemma TotalsMerges(s: State, n: nat, align: nat)
    ensures Totals(s, n, align).merges == s.merges + {DToH(NetRow(n))}
  {
  }

  /** The totals step leaves every cell but its four alone. */
  lemma TotalsKeeps(s: State, n: nat, align: nat, d: Coord)
    requires d != Coord(NetRow(n), ColJ) && d != Coord(PenaltySumRow(n), ColF)
    requires d != Coord(FinalRow(n), ColJ) && d != Coord(NetRow(n), ColD)
    ensures At(Totals(s, n, align), d) == At(s, d)
  {
    TotalsAt(s, n, align, d);
  }

  /** The four cells of the totals step, as it leaves them. */
  lemma TotalsCells(w: State, n: nat, align: nat)
    ensures At(Totals(w, n, align), Coord(NetRow(n), ColJ)).value == Formula(NetFormula(NetRow(n)))
    ensures At(Totals(w, n, align), Coord(PenaltySumRow(n), ColF)).value
         == Formula(PenaltyFormula(ChecksRow(n), PenaltyWeightsRow(n)))
    ensures At(Totals(w, n, align), Coord(FinalRow(n), ColJ)).value == Formula(FinalFormula(NetRow(n), PenaltySumRow(n)))
    ensures At(Totals(w, n, align), Coord(NetRow(n), ColD)).style.alignment == align
  {
    TotalsAt(w, n, align, Coord(NetRow(n), ColJ));
    TotalsAt(w, n, align, Coord(PenaltySumRow(n), ColF));
    TotalsAt(w, n, align, Coord(FinalRow(n), ColJ));
    TotalsAt(w, n, align, Coord(NetRow(n), ColD));
  }

  // ---- From the prepared sheet to the rendered one ----

  /** The steps after the preparation, on any prepared sheet `p`. */
  function Finished(p: State, labels: seq<string>, weights: seq<real>, align: nat): State
    requires |labels| == |weights|
  {
    Totals(PartsWritten(p, labels, weights, |weights|), |weights|, align)
  }

  /** The rendered sheet is the prepared one, finished. */
  lemma RenderedIsFinished(s: State, inv: Invocation)
    requires Valid(inv)
    ensures Rendered(s, inv)
         == Finished(Prepared(Headers(s, inv), |inv.weights|), PartLabels(inv), inv.weights,
                     At(Headers(s, inv), D11).style.alignment)
  {
  }

  lemma {:induction false} FinishedRowsAbove(p: State, labels: seq<string>, weights: seq<real>, align: nat, d: Coord)
    requires |labels| == |weights| && d.row < 9
    ensures At(Finished(p, labels, weights, align), d) == At(p, d)
  {
    PartsWrittenKeeps(p, labels, weights, |weights|, d);
    TotalsKeeps(PartsWritten(p, labels, weights, |weights|), |weights|, align, d);
  }

  lemma {:induction false} FinishedPart(p: State, labels: seq<string>, weights: seq<real>, align: nat, i: nat)
    requires |labels| == |weights| && i < |weights|
    ensures At(Finished(p, labels, weights, align), Coord(PartRow(i), ColA)).value == Assigned(labels[i])
    ensures At(Finished(p, labels, weights, align), Coord(PartRow(i), ColB)).value == Number(weights[i])
    ensures At(Finished(p, labels, weights, align), Coord(PartRow(i), ColJ)).value == Formula(ScoreFormula(PartRow(i)))
  {
    var n := |weights|;
    var w := PartsWritten(p, labels, weights, n);
    var row := PartRow(i);
    TotalsKeeps(w, n, align, Coord(row, ColA));
    TotalsKeeps(w, n, align, Coord(row, ColB));
    TotalsKeeps(w, n, align, Coord(row, ColJ));
    PartsWrittenAt(p, labels, weights, n, Coord(row, ColA));
    PartsWrittenAt(p, labels, weights, n, Coord(row, ColB));
    PartsWrittenAt(p, labels, weights, n, Coord(row, ColJ));
  }

  lemma {:induction false} FinishedPartFormat(p: State, labels: seq<string>, weights: seq<real>, align: nat, i: nat, col: nat)
    requires |labels| == |weights| && 0 < i < |weights| && At(p, Coord(PartRow(i), col)) == Blank
    ensures col != ColA && col != ColB && col != ColJ ==> At(Finished(p, labels, weights, align), Coord(PartRow(i), col)).value == Empty
    ensures At(Finished(p, labels, weights, align), Coord(9, col)).style == At(p, Coord(9, col)).style
    ensures At(Finished(p, labels, weights, align), Coord(PartRow(i), col)).style
         == if 1 <= col <= ColK then CopiedStyle(At(p, Coord(9, col)).style, DefaultStyle) else DefaultStyle
  {
    var n := |weights|;
    var w := PartsWritten(p, labels, weights, n);
    var d := Coord(PartRow(i), col);
    TotalsKeeps(w, n, align, d);
    TotalsKeeps(w, n, align, Coord(9, col));
    PartsWrittenAt(p, labels, weights, n, d);
    PartsWrittenAt(p, labels, weights, n, Coord(9, col));
  }

  lemma {:induction false} FinishedMerges(p: State, labels: seq<string>, weights: seq<real>, align: nat)
    requires |labels| == |weights|
    ensures Finished(p, labels, weights, align).merges == p.merges + {DToH(NetRow(|weights|))}
  {
    PartsWrittenMerges(p, labels, weights, |weights|);
    TotalsMerges(PartsWritten(p, labels, weights, |weights|), |weights|, align);
  }

  /** Below the parts, only the four totals cells change. */
  lemma {:induction false} FinishedBelow(p: State, labels: seq<string>, weights: seq<real>, align: nat, d: Coord)
    requires |labels| == |weights| && d.row >= 9 + |weights|
    ensures At(Finished(p, labels, weights, align), d)
         == if d == Coord(NetRow(|weights|), ColD) then Cell(At(p, d).value, At(p, d).style.(alignment := align))
            else if d == Coord(NetRow(|weights|), ColJ) || d == Coord(PenaltySumRow(|weights|), ColF)
                 || d == Coord(FinalRow(|weights|), ColJ) then At(Finished(p, labels, weights, align), d)
            else At(p, d)
  {
    var w := PartsWritten(p, labels, weights, |weights|);
    PartsWrittenKeeps(p, labels, weights, |weights|, d);
    TotalsAt(w, |weights|, align, d);
  }

  // ---- The rendered sheet ----

  /** A range starting at row 9 or below covers no cell above row 9. */
  lemma NotSwallowedAbove(d: Coord, rs: set<Range>)
    requires d.row < 9 && forall r :: r in rs ==> r.minRow >= 9
    ensures !Swallowed(d, rs)
  {
  }

  /** Rendering leaves rows 1 to 8 as the header step leaves them. */
  lemma {:induction false} AboveParts(s: State, inv: Invocation, d: Coord)
    requires Valid(inv) && d.row < 9
    ensures At(Rendered(s, inv), d) == At(Headers(s, inv), d)
  {
    var n := |inv.weights|;
    var h := Headers(s, inv);
    RenderedIsFinished(s, inv);
    FinishedRowsAbove(Prepared(h, n), PartLabels(inv), inv.weights, At(h, D11).style.alignment, d);
    if n > 1 {
      PreparedAt(h, n, d);
      NotSwallowedAbove(d, Stale(TemplateRowsUnmerged(h, 3), n));
    }
  }

  /** The header cells: the course label in B2, the task in B3, and in A5 and
      B5 the heading and the student names, which follow the mode. */
  lemma {:induction false} RenderedHeaders(s: State, inv: Invocation)
    requires Valid(inv)
    ensures At(Rendered(s, inv), B2).value == Assigned(inv.course)
    ensures At(Rendered(s, inv), B3).value == Assigned(inv.task)
    ensures At(Rendered(s, inv), A5).value == Str(if inv.mode == Teams then "Estudiantes:" else "Estudiante:")
    ensures At(Rendered(s, inv), B5).value
         == Assigned(if inv.mode == Teams then Text.Join(inv.group, ", ") else inv.group[0])
  {
    AboveParts(s, inv, B2);
    AboveParts(s, inv, B3);
    AboveParts(s, inv, A5);
    AboveParts(s, inv, B5);
    HeadersAt(s, inv, B2);
    HeadersAt(s, inv, B3);
    HeadersAt(s, inv, A5);
    HeadersAt(s, inv, B5);
  }

  /** Part `i` sits in row `9 + i`: its label in A, its weight in B and its
      score formula in J. */
  lemma {:induction false} RenderedPart(s: State, inv: Invocation, i: nat)
    requires Valid(inv) && i < |inv.weights|
    ensures At(Rendered(s, inv), Coord(PartRow(i), ColA)).value == Assigned(PartLabel(inv.partLabel, i, inv.names[i]))
    ensures At(Rendered(s, inv), Coord(PartRow(i), ColB)).value == Number(inv.weights[i])
    ensures At(Rendered(s, inv), Coord(PartRow(i), ColJ)).value == Formula(ScoreFormula(PartRow(i)))
  {
    var h := Headers(s, inv);
    RenderedIsFinished(s, inv);
    FinishedPart(Prepared(h, |inv.weights|), PartLabels(inv), inv.weights, At(h, D11).style.alignment, i);
  }

  /** Every part row after the first is blank apart from its A, B and J
      cells, and takes row 9's look in columns A to K when row 9's cell has a
      style of its own, keeping the default style everywhere else. */
  lemma {:induction false} RenderedPartFormat(s: State, inv: Invocation, i: nat, col: nat)
    requires Valid(inv) && 0 < i < |inv.weights|
    ensures col != ColA && col != ColB && col != ColJ ==> At(Rendered(s, inv), Coord(PartRow(i), col)).value == Empty
    ensures 1 <= col <= ColK
        ==> (At(Rendered(s, inv), Coord(PartRow(i), col)).style
             == CopiedStyle(At(Rendered(s, inv), Coord(9, col)).style, DefaultStyle))
    ensures 1 <= col <= ColK && HasStyle(At(Rendered(s, inv), Coord(9, col)).style)
        ==> SameLook(At(Rendered(s, inv), Coord(PartRow(i), col)).style, At(Rendered(s, inv), Coord(9, col)).style)
    ensures !(1 <= col <= ColK && HasStyle(At(Rendered(s, inv), Coord(9, col)).style))
        ==> At(Rendered(s, inv), Coord(PartRow(i), col)).style == DefaultStyle
  {
    var n := |inv.weights|;
    var h := Headers(s, inv);
    var p := Prepared(h, n);
    RenderedIsFinished(s, inv);
    PreparedAt(h, n, Coord(PartRow(i), col));
    FinishedPartFormat(p, PartLabels(inv), inv.weights, At(h, D11).style.alignment, i, col);
    CopiedStyleSpec(At(p, Coord(9, col)).style, DefaultStyle);
  }

  /** With one part the template's merges are all kept, and `D11:H11` is merged. */
  lemma {:induction false} RenderedMergesOnePart(s: State, inv: Invocation)
    requires Valid(inv) && |inv.weights| == 1
    ensures Rendered(s, inv).merges == s.merges + {DToH(11)}
  {
    var h := Headers(s, inv);
    var f := Finished(h, PartLabels(inv), inv.weights, At(h, D11).style.alignment);
    assert Rendered(s, inv) == f by {
      RenderedIsFinished(s, inv);
      assert Prepared(h, 1) == h;
    }
    assert f.merges == s.merges + {DToH(11)} by {
      FinishedMerges(h, PartLabels(inv), inv.weights, At(h, D11).style.alignment);
      HeadersMerges(s, inv);
    }
  }

  /** The set reasoning behind `RenderedMerges`: a template net-grade range
      outside rows 9 to `9 + n` is `D12:H12` with two parts, which is the
      new net grade range. */
  lemma MergesAfterCleanup(template: set<Range>, prepared: set<Range>, rendered: set<Range>, n: nat, m: Range)
    requires n > 1 && rendered == prepared + {DToH(NetRow(n))}
    requires m in prepared <==> m in template && !TemplateNetRange(m, 3) && !(9 <= m.minRow <= 9 + n)
    ensures m in rendered <==> m == DToH(NetRow(n)) || (m in template && !(9 <= m.minRow <= 9 + n))
  {
    if TemplateNetRange(m, 3) && !(9 <= m.minRow <= 9 + n) {
      assert m == DToH(NetRow(n));
    }
  }

  /** With more than one part the net grade row `D{net}:H{net}` is merged,
      the merges starting in rows 9 to `9 + n` are gone and every other
      template merge stays where it was. */
  lemma {:induction false} RenderedMerges(s: State, inv: Invocation, m: Range)
    requires Valid(inv) && |inv.weights| > 1
    ensures m in Rendered(s, inv).merges
        <==> m == DToH(NetRow(|inv.weights|)) || (m in s.merges && !(9 <= m.minRow <= 9 + |inv.weights|))
    ensures m in Rendered(s, inv).merges && m != DToH(NetRow(|inv.weights|)) ==> !(9 <= m.minRow <= 9 + |inv.weights|)
  {
    var n := |inv.weights|;
    var h := Headers(s, inv);
    RenderedIsFinished(s, inv);
    FinishedMerges(Prepared(h, n), PartLabels(inv), inv.weights, At(h, D11).style.alignment);
    HeadersMerges(s, inv);
    PreparedMerges(h, n, m);
    MergesAfterCleanup(s.merges, Prepared(h, n).merges, Rendered(s, inv).merges, n, m);
  }

  /** The three formulas below the parts sit in the rows the template's
      formulas moved to, and `D{net}` carries the alignment the template's
      `D11` had. */
  lemma {:induction false} RenderedTotals(s: State, inv: Invocation)
    requires Valid(inv)
    ensures var n := |inv.weights|;
      At(Rendered(s, inv), Coord(NetRow(n), ColJ)).value == Formula(NetFormula(NetRow(n)))
    ensures var n := |inv.weights|;
      At(Rendered(s, inv), Coord(PenaltySumRow(n), ColF)).value
        == Formula(PenaltyFormula(ChecksRow(n), PenaltyWeightsRow(n)))
    ensures var n := |inv.weights|;
      At(Rendered(s, inv), Coord(FinalRow(n), ColJ)).value == Formula(FinalFormula(NetRow(n), PenaltySumRow(n)))
    ensures var n := |inv.weights|;
      At(Rendered(s, inv), Coord(NetRow(n), ColD)).style.alignment == At(s, D11).style.alignment
  {
    var n := |inv.weights|;
    var h := Headers(s, inv);
    var w := PartsWritten(Prepared(h, n), PartLabels(inv), inv.weights, n);
    HeadersAt(s, inv, D11);
    TotalsCells(w, n, At(h, D11).style.alignment);
  }

  /** The net grade sums column J from the first part's row down to the
      template's row 10 wherever it moved, the row right after the last part. */
  lemma NetSumsParts(n: nat)
    requires n >= 1
    ensures Refs(NetFormula(NetRow(n))) == [Rel("J", PartRow(0)), Rel("J", TemplateRow(10, n))]
    ensures TemplateRow(10, n) == PartRow(n - 1) + 1
  {
    var net := NetRow(n);
    assert net - 1 == TemplateRow(10, n);
    NetFormulaRefs(net);
  }

  /** The cells the generator writes when there is a single part. */
  predicate WrittenForOnePart(d: Coord) {
    d == B2 || d == B3 || d == A5 || d == B5 ||
    d == Coord(9, ColA) || d == Coord(9, ColB) || d == Coord(9, ColJ) ||
    d == Coord(11, ColJ) || d == Coord(13, ColJ) || d == Coord(18, ColF)
  }

  /** The finishing steps leave alone every cell they do not write. */
  lemma {:induction false} FinishedKeeps(p: State, labels: seq<string>, weights: seq<real>, align: nat, d: Coord)
    requires |labels| == |weights| && !(10 <= d.row < 9 + |weights|)
    requires d.row == 9 ==> d.col != ColA && d.col != ColB && d.col != ColJ
    requires d != Coord(NetRow(|weights|), ColJ) && d != Coord(PenaltySumRow(|weights|), ColF)
    requires d != Coord(FinalRow(|weights|), ColJ) && d != Coord(NetRow(|weights|), ColD)
    ensures At(Finished(p, labels, weights, align), d) == At(p, d)
  {
    var w := PartsWritten(p, labels, weights, |weights|);
    PartsWrittenAt(p, labels, weights, |weights|, d);
    TotalsKeeps(w, |weights|, align, d);
  }

  /** The finishing steps keep row 9's styles, and its values outside the
      label, weight and score columns. */
  lemma FinishedRowNine(p: State, labels: seq<string>, weights: seq<real>, align: nat, col: nat)
    requires |labels| == |weights| > 0
    ensures At(Finished(p, labels, weights, align), Coord(9, col)).style == At(p, Coord(9, col)).style
    ensures col != ColA && col != ColB && col != ColJ ==> At(Finished(p, labels, weights, align), Coord(9, col)) == At(p, Coord(9, col))
  {
    var w := PartsWritten(p, labels, weights, |weights|);
    PartsWrittenAt(p, labels, weights, |weights|, Coord(9, col));
    TotalsKeeps(w, |weights|, align, Coord(9, col));
  }

  /** Below the parts the finishing steps keep every cell but the three
      formulas, and `D{net}` too when it already has the alignment written. */
  lemma FinishedBelowKept(p: State, labels: seq<string>, weights: seq<real>, align: nat, d: Coord)
    requires |labels| == |weights| && d.row >= 9 + |weights|
    requires d != Coord(NetRow(|weights|), ColJ) && d != Coord(PenaltySumRow(|weights|), ColF)
    requires d != Coord(FinalRow(|weights|), ColJ)
    requires d == Coord(NetRow(|weights|), ColD) ==> At(p, d).style.alignment == align
    ensures At(Finished(p, labels, weights, align), d) == At(p, d)
  {
    FinishedBelow(p, labels, weights, align, d);
    if d == Coord(NetRow(|weights|), ColD) {
      var c := At(p, d);
      assert c.style.(alignment := align) == c.style;
      assert Cell(c.value, c.style) == c;
    }
  }

  /** With a single part nothing is inserted or unmerged: every other cell,
      `D11` included, is as the template has it. */
  lemma {:induction false} RenderedOnePart(s: State, inv: Invocation, d: Coord)
    requires Valid(inv) && |inv.weights| == 1 && !WrittenForOnePart(d)
    ensures At(Rendered(s, inv), d) == At(s, d)
  {
    var h := Headers(s, inv);
    var align := At(h, D11).style.alignment;
    RenderedIsFinished(s, inv);
    HeadersAt(s, inv, d);
    if d == D11 {
      FinishedBelow(h, PartLabels(inv), inv.weights, align, d);
    } else {
      FinishedKeeps(h, PartLabels(inv), inv.weights, align, d);
    }
  }

  /** Row 9, the first part's row, keeps the template's style in every
      column, and outside A, B and J its value too, unless a merge the
      cleanup removes covers it without anchoring. */
  lemma {:induction false} RenderedRowNine(s: State, inv: Invocation, col: nat)
    requires Valid(inv)
    requires |inv.weights| > 1 ==> !Swallowed(Coord(9, col), Stale(s, |inv.weights|))
    ensures At(Rendered(s, inv), Coord(9, col)).style == At(s, Coord(9, col)).style
    ensures col != ColA && col != ColB && col != ColJ ==> At(Rendered(s, inv), Coord(9, col)) == At(s, Coord(9, col))
  {
    var n := |inv.weights|;
    var h := Headers(s, inv);
    var p := Prepared(h, n);
    var d := Coord(9, col);
    RenderedIsFinished(s, inv);
    HeadersPreparedRowNine(s, inv, col);
    FinishedRowNine(p, PartLabels(inv), inv.weights, At(h, D11).style.alignment, col);
  }

  /** The preparation leaves row 9 as it was, unless a range the cleanup
      unmerges swallows the cell. */
  lemma PreparedRowNine(h: State, n: nat, col: nat)
    requires n > 1 ==> !Swallowed(Coord(9, col), Stale(h, n))
    ensures At(Prepared(h, n), Coord(9, col)) == At(h, Coord(9, col))
  {
    if n > 1 {
      StaleShrinks(h, n);
      PreparedAt(h, n, Coord(9, col));
    }
  }

  /** With more than one part, a template cell in row 10 or below is found
      `n - 1` rows lower. In the template's rows 10 to 12, columns E to H of
      a row whose `D:H` range was merged read as blank. The exceptions are
      the three formula cells rewritten there and a cell that a merge the
      cleanup removes covers without anchoring; `D{net}` is no exception,
      as it gets back the alignment it had as `D11`. */
  lemma {:induction false} RenderedMovesRest(s: State, inv: Invocation, d: Coord)
    requires Valid(inv) && |inv.weights| > 1 && d.row >= 10
    requires var n, e := |inv.weights|, Coord(d.row + |inv.weights| - 1, d.col);
      e != Coord(NetRow(n), ColJ) && e != Coord(FinalRow(n), ColJ) && e != Coord(PenaltySumRow(n), ColF) &&
      !Swallowed(e, Stale(s, n))
    ensures At(Rendered(s, inv), Coord(d.row + |inv.weights| - 1, d.col))
         == if d.row <= 12 && ColD < d.col <= ColH && DToH(d.row) in s.merges then Blank else At(s, d)
  {
    HeadersPreparedMoves(s, inv, d);
    RenderedBelowMoved(s, inv, d);
  }

  /** `RenderedBelow` for a cell the preparation moved down from row 10 or below. */
  lemma RenderedBelowMoved(s: State, inv: Invocation, d: Coord)
    requires Valid(inv) && |inv.weights| > 1 && d.row >= 10
    requires var n, e := |inv.weights|, Coord(d.row + |inv.weights| - 1, d.col);
      e != Coord(NetRow(n), ColJ) && e != Coord(FinalRow(n), ColJ) && e != Coord(PenaltySumRow(n), ColF) &&
      !Swallowed(e, Stale(s, n))
    ensures var e := Coord(d.row + |inv.weights| - 1, d.col);
      At(Rendered(s, inv), e) == At(Prepared(Headers(s, inv), |inv.weights|), e)
  {
    HeadersPreparedMoves(s, inv, d);
    RenderedBelow(s, inv, Coord(d.row + |inv.weights| - 1, d.col));
  }

  /** Below the parts the rendered sheet is the prepared one, but for the
      three formulas and the alignment of `D{net}`. */
  lemma RenderedBelow(s: State, inv: Invocation, e: Coord)
    requires Valid(inv) && e.row >= 9 + |inv.weights|
    requires var n := |inv.weights|;
      e != Coord(NetRow(n), ColJ) && e != Coord(FinalRow(n), ColJ) && e != Coord(PenaltySumRow(n), ColF)
    requires e == Coord(NetRow(|inv.weights|), ColD) ==>
      At(Prepared(Headers(s, inv), |inv.weights|), e).style.alignment == At(Headers(s, inv), D11).style.alignment
    ensures At(Rendered(s, inv), e) == At(Prepared(Headers(s, inv), |inv.weights|), e)
  {
    var h := Headers(s, inv);
    RenderedIsFinished(s, inv);
    FinishedBelowKept(Prepared(h, |inv.weights|), PartLabels(inv), inv.weights, At(h, D11).style.alignment, e);
  }

  /** The preparation moves a cell in row 10 or below `n - 1` rows down,
      blanking E to H of the template's rows 10 to 12 where that row's `D:H`
      range was merged, unless a range the cleanup unmerges swallows it. */
  lemma {:induction false} PreparedMoves(h: State, n: nat, d: Coord)
    requires n > 1 && d.row >= 10 && !Swallowed(Coord(d.row + n - 1, d.col), Stale(h, n))
    ensures At(Prepared(h, n), Coord(d.row + n - 1, d.col))
         == if d.row <= 12 && ColD < d.col <= ColH && DToH(d.row) in h.merges then Blank else At(h, d)
  {
    var e := Coord(d.row + n - 1, d.col);
    var u := TemplateRowsUnmerged(h, 3);
    StaleShrinks(h, n);
    assert !Swallowed(e, Stale(u, n));
    PreparedAt(h, n, e);
    TemplateRowsUnmergedAt(h, 3, d, DToH(9));
  }

  /** `PreparedRowNine` after the headers, which leave row 9 and the merges alone. */
  lemma HeadersPreparedRowNine(s: State, inv: Invocation, col: nat)
    requires Valid(inv)
    requires |inv.weights| > 1 ==> !Swallowed(Coord(9, col), Stale(s, |inv.weights|))
    ensures At(Prepared(Headers(s, inv), |inv.weights|), Coord(9, col)) == At(s, Coord(9, col))
  {
    var h := Headers(s, inv);
    HeadersKeep(s, inv, Coord(9, col));
    HeadersStale(s, inv, |inv.weights|);
    PreparedRowNine(h, |inv.weights|, col);
  }

  /** `PreparedMoves` after the headers, which leave rows 9 and below and the merges alone. */
  lemma HeadersPreparedMoves(s: State, inv: Invocation, d: Coord)
    requires Valid(inv) && |inv.weights| > 1 && d.row >= 10
    requires !Swallowed(Coord(d.row + |inv.weights| - 1, d.col), Stale(s, |inv.weights|))
    ensures At(Prepared(Headers(s, inv), |inv.weights|), Coord(d.row + |inv.weights| - 1, d.col))
         == if d.row <= 12 && ColD < d.col <= ColH && DToH(d.row) in s.merges then Blank else At(s, d)
    ensures d == D11 ==> At(Prepared(Headers(s, inv), |inv.weights|), Coord(d.row + |inv.weights| - 1, d.col))
                         == At(Headers(s, inv), D11)
  {
    var h := Headers(s, inv);
    HeadersKeep(s, inv, d);
    HeadersStale(s, inv, |inv.weights|);
    PreparedMoves(h, |inv.weights|, d);
  }

  lemma HeadersStale(s: State, inv: Invocation, n: nat)
    requires Valid(inv)
    ensures Headers(s, inv).merges == s.merges && Stale(Headers(s, inv), n) == Stale(s, n)
  {
    HeadersMerges(s, inv);
  }

  /** Unmerging the template's rows 10 to 12 leaves no new stale merge. */
  lemma StaleShrinks(h: State, n: nat)
    ensures Stale(TemplateRowsUnmerged(h, 3), n) <= Stale(h, n)
  {
    forall m | m in Stale(TemplateRowsUnmerged(h, 3), n) ensures m in Stale(h, n) {
      TemplateRowsUnmergedAt(h, 3, B2, m);
    }
  }
}
