/** Spreadsheet formula texts the generator writes, decimal rendering of row
    numbers, and a scanner that lists the cell references a formula text
    mentions, so that what a formula refers to can be stated and proved. */
module Formulas {

  predicate IsDigit(c: char) { '0' <= c <= '9' }
  predicate IsLetter(c: char) { 'A' <= c <= 'Z' }

  /** Characters that can be part of a cell reference such as `$C$8` or `J10`. */
  predicate IsRefChar(c: char) { IsLetter(c) || IsDigit(c) || c == '$' }

  predicate AllDigits(s: string) { forall i :: 0 <= i < |s| ==> IsDigit(s[i]) }
  predicate AllLetters(s: string) { forall i :: 0 <= i < |s| ==> IsLetter(s[i]) }
  predicate AllRefChars(s: string) { forall i :: 0 <= i < |s| ==> IsRefChar(s[i]) }

  /** The text following a reference ends it: it is empty or starts with a
      character that cannot continue a reference. */
  predicate EndsRef(t: string) { t == [] || !IsRefChar(t[0]) }

  function DigitChar(d: nat): (c: char)
    requires d < 10
    ensures IsDigit(c)
  {
    (48 + d) as char
  }

  function DigitValue(c: char): (d: nat)
    requires IsDigit(c)
    ensures d < 10
  {
    c as int - 48
  }

  /** Python's `str(n)` for a non-negative integer, as an f-string renders it. */
  function Decimal(n: nat): (s: string)
    ensures |s| > 0 && AllDigits(s)
    ensures s[0] == '0' ==> n == 0
  {
    if n < 10 then [DigitChar(n)] else Decimal(n / 10) + [DigitChar(n % 10)]
  }

  /** The value of a string of decimal digits. */
  function ParseDecimal(s: string): nat
    requires AllDigits(s)
  {
    if s == [] then 0 else 10 * ParseDecimal(s[..|s| - 1]) + DigitValue(s[|s| - 1])
  }

  /** Reading back a rendered row number gives the number. */
  lemma {:induction false} DecimalRoundTrip(n: nat)
    ensures ParseDecimal(Decimal(n)) == n
  {
    if n >= 10 {
      DecimalRoundTrip(n / 10);
      var s := Decimal(n);
      assert s[..|s| - 1] == Decimal(n / 10);
    }
  }

  /** A cell reference: column letters and row number, each possibly fixed with `$`. */
  datatype CellRef = CellRef(col: string, row: nat, colFixed: bool, rowFixed: bool)

  /** A relative reference such as `C9`. */
  function Rel(col: string, row: nat): CellRef { CellRef(col, row, false, false) }

  /** An absolute reference such as `$C$8`. */
  function Abs(col: string, row: nat): CellRef { CellRef(col, row, true, true) }

  predicate WellFormed(r: CellRef) { |r.col| > 0 && AllLetters(r.col) }

  /** How a reference is written in a formula. */
  function RefText(r: CellRef): string {
    (if r.colFixed then "$" else "") + r.col + (if r.rowFixed then "$" else "") + Decimal(r.row)
  }

  /** The number of leading letters of `s`. */
  function LetterRun(s: string): (n: nat)
    ensures n <= |s| && AllLetters(s[..n]) && (n == |s| || !IsLetter(s[n]))
  {
    if s != [] && IsLetter(s[0]) then 1 + LetterRun(s[1..]) else 0
  }

  /** The number of leading reference characters of `s`. */
  function RefRun(s: string): (n: nat)
    ensures n <= |s| && AllRefChars(s[..n]) && EndsRef(s[n..])
    ensures s != [] && IsRefChar(s[0]) ==> n > 0
  {
    if s != [] && IsRefChar(s[0]) then 1 + RefRun(s[1..]) else 0
  }

  /** Reads a whole word of reference characters as `$?LETTERS$?DIGITS`;
      `None` when the word is not a reference (a function name, a number). */
  function ParseRef(w: string): Option<CellRef> {
    if |w| > 0 && w[0] == '$' then ParseColumn(w[1..], true) else ParseColumn(w, false)
  }

  function ParseColumn(a: string, colFixed: bool): Option<CellRef> {
    var n := LetterRun(a);
    if n == 0 then None else ParseRow(a[..n], a[n..], colFixed)
  }

  function ParseRow(col: string, b: string, colFixed: bool): Option<CellRef> {
    if |b| > 0 && b[0] == '$' then ParseDigits(col, b[1..], colFixed, true)
    else ParseDigits(col, b, colFixed, false)
  }

  function ParseDigits(col: string, d: string, colFixed: bool, rowFixed: bool): Option<CellRef> {
    if |d| > 0 && AllDigits(d) then Some(CellRef(col, ParseDecimal(d), colFixed, rowFixed)) else None
  }

  datatype Option<T> = None | Some(value: T)

  /** The cell references a formula text mentions, left to right. */
  function Refs(s: string): seq<CellRef>
    decreases |s|
  {
    if s == [] then []
    else if !IsRefChar(s[0]) then Refs(s[1..])
    else
      var n := RefRun(s);
      Mentions(s[..n]) + Refs(s[n..])
  }

  /** What one word of reference characters contributes: the reference it
      spells, or nothing when it spells none. */
  function Mentions(w: string): seq<CellRef> {
    match ParseRef(w)
    case Some(r) => [r]
    case None => []
  }

  /** Reading a written reference gives the reference back. */
  lemma {:induction false} ParseRefText(r: CellRef)
    requires WellFormed(r)
    ensures ParseRef(RefText(r)) == Some(r)
  {
    var tail := (if r.rowFixed then "$" else "") + Decimal(r.row);
    var a := r.col + tail;
    assert RefText(r) == (if r.colFixed then "$" + a else a);
    assert r.colFixed ==> ("$" + a)[1..] == a;
    ParseColumnText(r, a, tail);
  }

  lemma {:induction false} ParseColumnText(r: CellRef, a: string, tail: string)
    requires WellFormed(r)
    requires tail == (if r.rowFixed then "$" else "") + Decimal(r.row) && a == r.col + tail
    ensures ParseColumn(a, r.colFixed) == Some(r)
  {
    var digits := Decimal(r.row);
    assert tail[0] == (if r.rowFixed then '$' else digits[0]);
    LetterRunPrefix(r.col, tail);
    assert a[..|r.col|] == r.col && a[|r.col|..] == tail;
    DecimalRoundTrip(r.row);
    var found := ParseDigits(r.col, digits, r.colFixed, r.rowFixed);
    assert found == Some(r);
    if r.rowFixed {
      assert tail[1..] == digits;
      assert ParseRow(r.col, tail, r.colFixed) == found;
    } else {
      assert tail == digits;
      assert ParseRow(r.col, tail, r.colFixed) == found;
    }
  }

  lemma {:induction false} LetterRunPrefix(col: string, tail: string)
    requires AllLetters(col)
    requires tail == [] || !IsLetter(tail[0])
    ensures LetterRun(col + tail) == |col|
  {
    if col != [] {
      assert (col + tail)[1..] == col[1..] + tail;
      LetterRunPrefix(col[1..], tail);
    } else {
      assert col + tail == tail;
    }
  }

  lemma {:induction false} RefRunPrefix(w: string, t: string)
    requires AllRefChars(w) && EndsRef(t)
    ensures RefRun(w + t) == |w|
  {
    if w != [] {
      assert (w + t)[1..] == w[1..] + t;
      RefRunPrefix(w[1..], t);
    } else {
      assert w + t == t;
    }
  }

  /** A word of reference characters followed by a separator contributes
      what `ParseRef` reads from it, and scanning continues after it. */
  lemma {:induction false} RefsWord(w: string, t: string)
    requires w != [] && AllRefChars(w) && EndsRef(t)
    ensures Refs(w + t) == Mentions(w) + Refs(t)
  {
    RefRunPrefix(w, t);
    assert (w + t)[..|w|] == w;
    assert (w + t)[|w|..] == t;
  }

  /** A written reference followed by a separator contributes that reference. */
  lemma {:induction false} RefsRef(r: CellRef, t: string)
    requires WellFormed(r) && EndsRef(t)
    ensures Refs(RefText(r) + t) == [r] + Refs(t)
  {
    var w := RefText(r);
    assert AllRefChars(w) by {
      var p := (if r.colFixed then "$" else "") + r.col + (if r.rowFixed then "$" else "");
      assert w == p + Decimal(r.row);
      forall i | 0 <= i < |w| ensures IsRefChar(w[i]) {
        if i >= |p| { assert w[i] == Decimal(r.row)[i - |p|]; }
      }
    }
    ParseRefText(r);
    RefsWord(w, t);
  }

  /** `a` and `b` meet at a point where no reference can straddle them. */
  predicate Break(a: string, b: string) {
    a == [] || b == [] || !IsRefChar(a[|a| - 1]) || !IsRefChar(b[0])
  }

  lemma {:induction false} RefRunInside(a: string, b: string)
    requires RefRun(a) < |a|
    ensures RefRun(a + b) == RefRun(a)
  {
    if a != [] && IsRefChar(a[0]) {
      assert (a + b)[1..] == a[1..] + b;
      RefRunInside(a[1..], b);
    }
  }

  lemma {:induction false} SkipStep(a: string, b: string)
    requires a != [] && !IsRefChar(a[0])
    ensures Refs(a) == Refs(a[1..]) && Refs(a + b) == Refs(a[1..] + b)
  {
    assert (a + b)[1..] == a[1..] + b;
  }

  lemma {:induction false} WordStep(a: string, b: string, n: nat)
    requires a != [] && IsRefChar(a[0]) && n == RefRun(a) && n < |a|
    ensures Refs(a) == Mentions(a[..n]) + Refs(a[n..])
    ensures Refs(a + b) == Mentions(a[..n]) + Refs(a[n..] + b)
  {
    RefRunInside(a, b);
    assert (a + b)[..n] == a[..n];
    assert (a + b)[n..] == a[n..] + b;
  }

  lemma {:induction false} LastWordStep(a: string, b: string)
    requires a != [] && IsRefChar(a[0]) && RefRun(a) == |a|
    requires b != [] && !IsRefChar(b[0])
    ensures Refs(a + b) == Refs(a) + Refs(b)
  {
    assert a[..|a|] == a && a[|a|..] == [];
    assert Refs(a) == Mentions(a);
    RefsWord(a, b);
  }

  /** Scanning two texts that meet at a break is scanning each in turn. */
  lemma {:induction false} RefsAppend(a: string, b: string)
    requires Break(a, b)
    ensures Refs(a + b) == Refs(a) + Refs(b)
    decreases |a|
  {
    if a == [] {
      assert a + b == b;
    } else if b == [] {
      assert a + b == a;
    } else if !IsRefChar(a[0]) {
      SkipStep(a, b);
      RefsAppend(a[1..], b);
    } else if RefRun(a) < |a| {
      var n := RefRun(a);
      WordStep(a, b, n);
      RefsAppend(a[n..], b);
    } else {
      LastWordStep(a, b);
    }
  }

  /** A written reference on its own is read as exactly that reference. */
  lemma {:induction false} RefsOfRef(r: CellRef)
    requires WellFormed(r)
    ensures Refs(RefText(r)) == [r]
  {
    RefsRef(r, []);
    assert RefText(r) + [] == RefText(r);
  }

}

module FormulaTexts {
  import opened Formulas

  /** `a*b` for two references. */
  function Product(f: (CellRef, CellRef)): string {
    RefText(f.0) + "*" + RefText(f.1)
  }

  /** A sum of products, `a1*b1+a2*b2+...`. */
  function Products(fs: seq<(CellRef, CellRef)>): string {
    if |fs| <= 1 then (if fs == [] then [] else Product(fs[0]))
    else Product(fs[0]) + "+" + Products(fs[1..])
  }

  /** The references of the factors, left to right. */
  function Factors(fs: seq<(CellRef, CellRef)>): (refs: seq<CellRef>)
    ensures |refs| == 2 * |fs|
    ensures forall i :: 0 <= i < |fs| ==> refs[2 * i] == fs[i].0 && refs[2 * i + 1] == fs[i].1
  {
    if fs == [] then [] else [fs[0].0, fs[0].1] + Factors(fs[1..])
  }

  predicate AllWellFormed(fs: seq<(CellRef, CellRef)>) {
    forall i :: 0 <= i < |fs| ==> WellFormed(fs[i].0) && WellFormed(fs[i].1)
  }

  lemma {:induction false} ProductRefs(f: (CellRef, CellRef))
    requires WellFormed(f.0) && WellFormed(f.1)
    ensures Refs(Product(f)) == [f.0, f.1]
    ensures Product(f) != [] && IsRefChar(Product(f)[0])
  {
    RefsOfRef(f.0);
    RefsOfRef(f.1);
    RefsAppend(RefText(f.0), "*");
    RefsAppend(RefText(f.0) + "*", RefText(f.1));
    assert IsRefChar(RefText(f.0)[0]);
  }

  /** Two texts joined by `+` mention what each mentions. */
  lemma {:induction false} PlusRefs(head: string, rest: string)
    ensures Refs(head + "+" + rest) == Refs(head) + Refs(rest)
  {
    RefsAppend(head, "+");
    RefsAppend(head + "+", rest);
    SkipStep("+", []);
  }

  /** A sum of products mentions exactly the factors, in order. */
  lemma {:induction false} ProductsRefs(fs: seq<(CellRef, CellRef)>)
    requires AllWellFormed(fs)
    ensures Refs(Products(fs)) == Factors(fs)
  {
    if |fs| == 1 {
      ProductRefs(fs[0]);
    } else if |fs| > 1 {
      ProductRefs(fs[0]);
      ProductsRefs(fs[1..]);
      PlusRefs(Product(fs[0]), Products(fs[1..]));
    }
  }

  /** The factors of a rubric row's score: each mark column C to H of row `r`
      with the weight in the same column of row 8. */
  function ScoreFactors(r: nat): seq<(CellRef, CellRef)> {
    [(Rel("C", r), Abs("C", 8)), (Rel("D", r), Abs("D", 8)), (Rel("E", r), Abs("E", 8)),
     (Rel("F", r), Abs("F", 8)), (Rel("G", r), Abs("G", 8)), (Rel("H", r), Abs("H", 8))]
  }

  /** The weighted score written to `J{r}`:
      `=(C{r}*$C$8+D{r}*$D$8+E{r}*$E$8+F{r}*$F$8+G{r}*$G$8+H{r}*$H$8)*B{r}/100`. */
  function ScoreFormula(r: nat): string {
    "=(" + Products(ScoreFactors(r)) + ")*" + RefText(Rel("B", r)) + "/100"
  }

  lemma {:induction false} ScoreFactorsWellFormed(r: nat)
    ensures AllWellFormed(ScoreFactors(r))
  {
  }

  /** A text with no reference that starts and ends with characters that
      cannot be part of one. */
  predicate Plain(t: string) {
    t != [] && !IsRefChar(t[0]) && !IsRefChar(t[|t| - 1]) && Refs(t) == []
  }

  /** Text without any reference character mentions no reference. */
  lemma {:induction false} RefsNone(t: string)
    requires forall i :: 0 <= i < |t| ==> !IsRefChar(t[i])
    ensures Refs(t) == []
    decreases |t|
  {
    if t != [] {
      RefsNone(t[1..]);
    }
  }

  /** The fixed pieces of the score formula mention no reference; `100` is a
      number, not a cell. */
  lemma ScorePieces()
    ensures Plain("=(") && Plain(")*") && Refs("/100") == [] && !IsRefChar('/')
  {
    RefsNone("=(");
    RefsNone(")*");
    assert ParseRef("100") == None;
  }

  /** The fixed pieces of the net grade. */
  lemma NetPieces()
    ensures Plain("=SUM(") && Plain(":") && Plain(")")
  {
    SumOpenPlain();
    RefsNone(":");
    RefsNone(")");
  }

  /** `=SUM(` mentions no reference: `SUM` is a function name, not a cell. */
  lemma SumOpenPlain()
    ensures Plain("=SUM(")
  {
    SumWordRefs();
    assert "=SUM("[1..] == "SUM" + "(";
    SkipStep("=SUM(", []);
  }

  lemma SumWordRefs()
    ensures Refs("SUM" + "(") == []
  {
    RefsNone("(");
    assert AllRefChars("SUM") && EndsRef("(");
    RefsWord("SUM", "(");
    SumNoRef();
  }

  /** The function name `SUM` has no row number: it is not a reference. */
  lemma SumNoRef()
    ensures Mentions("SUM") == []
  {
    assert LetterRun("SUM") == 3;
    assert ParseRef("SUM") == None;
  }

  lemma SignPieces()
    ensures Plain("=") && Plain("-")
  {
    RefsNone("=");
    RefsNone("-");
  }

  /** A plain prefix adds no reference. */
  lemma {:induction false} PrefixedRefs(pre: string, body: string)
    requires Plain(pre)
    ensures Refs(pre + body) == Refs(body)
  {
    RefsAppend(pre, body);
  }

  /** `pre a mid rest` mentions `a`, then what `rest` mentions. */
  lemma {:induction false} RefThenRefs(pre: string, a: CellRef, mid: string, rest: string)
    requires Plain(pre) && Plain(mid) && WellFormed(a)
    ensures Refs(pre + RefText(a) + mid + rest) == [a] + Refs(rest)
  {
    var t := RefText(a);
    var x := pre + t;
    var y := x + mid;
    RefsOfRef(a);
    assert Break(pre, t);
    RefsAppend(pre, t);
    assert Refs(x) == [a];
    assert Break(x, mid);
    RefsAppend(x, mid);
    assert Refs(y) == [a];
    assert y[|y| - 1] == mid[|mid| - 1];
    RefsAppend(y, rest);
  }

  /** Text between plain pieces: `pre body mid b post` mentions what `body`
      mentions, then `b`. */
  lemma {:induction false} WrappedRefs(pre: string, body: string, mid: string, b: CellRef, post: string)
    requires Plain(pre) && Plain(mid) && WellFormed(b)
    requires post != [] && !IsRefChar(post[0]) && Refs(post) == []
    ensures Refs(pre + body + mid + RefText(b) + post) == Refs(body) + [b]
  {
    RefsAppend(pre, body);
    RefsAppend(pre + body, mid);
    RefsOfRef(b);
    RefsAppend(pre + body + mid, RefText(b));
    RefsAppend(pre + body + mid + RefText(b), post);
  }

  /** The score of row `r` mentions its factors, in order, then the part weight `B{r}`. */
  lemma {:induction false} ScoreFormulaFactors(r: nat)
    ensures Refs(ScoreFormula(r)) == Factors(ScoreFactors(r)) + [Rel("B", r)]
  {
    ScoreFactorsWellFormed(r);
    ProductsRefs(ScoreFactors(r));
    ScorePieces();
    WrappedRefs("=(", Products(ScoreFactors(r)), ")*", Rel("B", r), "/100");
  }

  /** The score of row `r` mentions the marks C to H of row `r`, each next to
      its column weight fixed in row 8, and then the part weight `B{r}`: no
      other row. */
  lemma {:induction false} ScoreFormulaRefs(r: nat)
    ensures Refs(ScoreFormula(r)) == [Rel("C", r), Abs("C", 8), Rel("D", r), Abs("D", 8),
                                      Rel("E", r), Abs("E", 8), Rel("F", r), Abs("F", 8),
                                      Rel("G", r), Abs("G", 8), Rel("H", r), Abs("H", 8), Rel("B", r)]
  {
    ScoreFormulaFactors(r);
    var fs := ScoreFactors(r);
    var refs := Factors(fs);
    assert refs == [refs[0], refs[1], refs[2], refs[3], refs[4], refs[5],
                    refs[6], refs[7], refs[8], refs[9], refs[10], refs[11]];
    assert refs[0] == fs[0].0 && refs[1] == fs[0].1;
  }

  /** The net grade written to `J{net}`: `=SUM(J9:J{net-1})`. */
  function NetFormula(net: nat): string
    requires net >= 1
  {
    "=SUM(" + RefText(Rel("J", 9)) + ":" + RefText(Rel("J", net - 1)) + ")"
  }

  /** The net grade mentions the two ends of the summed column range, J9 and
      the row just above the net grade. */
  lemma {:induction false} NetFormulaRefs(net: nat)
    requires net >= 1
    ensures Refs(NetFormula(net)) == [Rel("J", 9), Rel("J", net - 1)]
  {
    NetPieces();
    RefsOfRef(Rel("J", 9));
    WrappedRefs("=SUM(", RefText(Rel("J", 9)), ":", Rel("J", net - 1), ")");
  }

  /** The factors of the late-delivery penalty: each check box D to H of the
      checks row with the weight in the same column of the weights row. */
  function PenaltyFactors(checks: nat, weights: nat): seq<(CellRef, CellRef)> {
    [(Rel("D", checks), Rel("D", weights)), (Rel("E", checks), Rel("E", weights)),
     (Rel("F", checks), Rel("F", weights)), (Rel("G", checks), Rel("G", weights)),
     (Rel("H", checks), Rel("H", weights))]
  }

  /** The penalty written to `F{sum}`:
      `=D{c}*D{w}+E{c}*E{w}+F{c}*F{w}+G{c}*G{w}+H{c}*H{w}`. */
  function PenaltyFormula(checks: nat, weights: nat): string {
    "=" + Products(PenaltyFactors(checks, weights))
  }

  /** The penalty mentions its factors, in order. */
  lemma {:induction false} PenaltyFormulaFactors(checks: nat, weights: nat)
    ensures Refs(PenaltyFormula(checks, weights)) == Factors(PenaltyFactors(checks, weights))
  {
    var fs := PenaltyFactors(checks, weights);
    assert AllWellFormed(fs);
    ProductsRefs(fs);
    SignPieces();
    PrefixedRefs("=", Products(fs));
  }

  /** The penalty mentions the five checks of the checks row, each followed by
      its weight in the weights row, and nothing else. */
  lemma {:induction false} PenaltyFormulaRefs(checks: nat, weights: nat)
    ensures Refs(PenaltyFormula(checks, weights))
         == [Rel("D", checks), Rel("D", weights), Rel("E", checks), Rel("E", weights),
             Rel("F", checks), Rel("F", weights), Rel("G", checks), Rel("G", weights),
             Rel("H", checks), Rel("H", weights)]
  {
    PenaltyFormulaFactors(checks, weights);
    var refs := Factors(PenaltyFactors(checks, weights));
    assert refs == [refs[0], refs[1], refs[2], refs[3], refs[4], refs[5],
                    refs[6], refs[7], refs[8], refs[9]];
  }

  /** The final grade written to `J{final}`: `=J{net}-J{net}*F{sum}`, the net
      grade less the penalty share of it. */
  function FinalFormula(net: nat, sum: nat): string {
    "=" + RefText(Rel("J", net)) + "-" + Product((Rel("J", net), Rel("F", sum)))
  }

  /** The final grade mentions the net grade twice and the penalty sum once. */
  lemma {:induction false} FinalFormulaRefs(net: nat, sum: nat)
    ensures Refs(FinalFormula(net, sum)) == [Rel("J", net), Rel("J", net), Rel("F", sum)]
  {
    SignPieces();
    ProductRefs((Rel("J", net), Rel("F", sum)));
    RefThenRefs("=", Rel("J", net), "-", Product((Rel("J", net), Rel("F", sum))));
  }
}
