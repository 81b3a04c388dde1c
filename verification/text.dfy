/** String operations of Python's `str` that the invoice generator relies on,
    over Dafny strings (sequences of Unicode scalar values). */
module Text {

  /** The characters Python's `str.isspace()` accepts, i.e. the ones that
      `str.strip()` without arguments removes from both ends. */
  predicate IsSpace(c: char) {
    ('\t' <= c <= '\r') || ('\U{1C}' <= c <= '\U{1F}') || c == ' ' ||
    c == '\U{85}' || c == '\U{A0}' || c == '\U{1680}' ||
    ('\U{2000}' <= c <= '\U{200A}') || c == '\U{2028}' || c == '\U{2029}' ||
    c == '\U{202F}' || c == '\U{205F}' || c == '\U{3000}'
  }

  /** `s.lstrip()`: drops the leading whitespace. */
  function TrimStart(s: string): (r: string)
    ensures |r| <= |s| && r == s[|s| - |r|..]
    ensures r == [] || !IsSpace(r[0])
    ensures forall i :: 0 <= i < |s| - |r| ==> IsSpace(s[i])
  {
    if s != [] && IsSpace(s[0]) then TrimStart(s[1..]) else s
  }

  /** `s.rstrip()`: drops the trailing whitespace. */
  function TrimEnd(s: string): (r: string)
    ensures |r| <= |s| && r == s[..|r|]
    ensures r == [] || !IsSpace(r[|r| - 1])
    ensures forall i :: |r| <= i < |s| ==> IsSpace(s[i])
  {
    if s != [] && IsSpace(s[|s| - 1]) then TrimEnd(s[..|s| - 1]) else s
  }

  /** A string that `strip()` leaves alone: it neither starts nor ends with whitespace. */
  predicate Stripped(s: string) {
    s == [] || (!IsSpace(s[0]) && !IsSpace(s[|s| - 1]))
  }

  /** A string that holds none of the characters in `cs`. */
  predicate Avoids(s: string, cs: set<char>) {
    forall i :: 0 <= i < |s| ==> s[i] !in cs
  }

  /** How many leading whitespace characters `strip()` removes. */
  function Indent(s: string): nat {
    |s| - |TrimStart(s)|
  }

  /** `s.strip()`: the slice of `s` left once the whitespace at both ends
      is dropped. */
  function Strip(s: string): (r: string)
    ensures Stripped(r)
    ensures Indent(s) + |r| <= |s| && r == s[Indent(s)..Indent(s) + |r|]
    ensures forall i :: Indent(s) + |r| <= i < |s| ==> IsSpace(s[i])
  {
    var r := TrimEnd(TrimStart(s));
    StripTrims(s, r);
    r
  }

  lemma {:induction false} StripTrims(s: string, r: string)
    requires r == TrimEnd(TrimStart(s))
    ensures Stripped(r)
    ensures Indent(s) + |r| <= |s| && r == s[Indent(s)..Indent(s) + |r|]
    ensures forall i :: Indent(s) + |r| <= i < |s| ==> IsSpace(s[i])
  {
    var t := TrimStart(s);
    var k := Indent(s);
    assert k == |s| - |t| && t == s[k..] && (t == [] || !IsSpace(t[0]));
    StripSlices(s, k, t, r);
  }

  /** Trimming the front and then the back leaves the slice of `s` between
      two runs of whitespace. */
  lemma {:induction false} StripSlices(s: string, k: nat, t: string, r: string)
    requires k <= |s| && t == s[k..] && (t == [] || !IsSpace(t[0]))
    requires |r| <= |t| && r == t[..|r|] && (r == [] || !IsSpace(r[|r| - 1]))
    requires forall i :: |r| <= i < |t| ==> IsSpace(t[i])
    ensures Stripped(r)
    ensures k + |r| <= |s| && r == s[k..k + |r|]
    ensures forall i :: k + |r| <= i < |s| ==> IsSpace(s[i])
  {
    assert r != [] ==> r[0] == t[0];
    forall i | k + |r| <= i < |s| ensures IsSpace(s[i]) {
      assert s[i] == t[i - k];
    }
  }

  lemma AvoidsSlice(s: string, cs: set<char>, i: nat, j: nat)
    requires Avoids(s, cs) && i <= j <= |s|
    ensures Avoids(s[i..j], cs)
  {
    assert forall k :: 0 <= k < j - i ==> s[i..j][k] == s[i + k];
  }

  lemma {:induction false} StripFixesStripped(s: string)
    requires Stripped(s)
    ensures Strip(s) == s
  {
  }

  /** `s.replace(c, d)` for one-character arguments, scanning from the left:
      every `c` becomes `d` and every other character stays in place. */
  function ReplaceChar(s: string, c: char, d: char): (r: string)
    ensures |r| == |s|
    ensures forall i :: 0 <= i < |s| ==> r[i] == (if s[i] == c then d else s[i])
  {
    if s == [] then [] else [if s[0] == c then d else s[0]] + ReplaceChar(s[1..], c, d)
  }

  lemma ReplaceKeepsAvoids(s: string, cs: set<char>, c: char, d: char)
    requires Avoids(s, cs) && d !in cs
    ensures Avoids(ReplaceChar(s, c, d), cs)
  {
  }

  lemma ReplaceRemoves(s: string, c: char, d: char)
    requires c != d
    ensures c !in ReplaceChar(s, c, d)
  {
    var r := ReplaceChar(s, c, d);
    assert forall i :: 0 <= i < |r| ==> r[i] != c;
  }

  lemma ReplaceKeepsStripped(s: string, c: char, d: char)
    requires Stripped(s) && !IsSpace(d)
    ensures Stripped(ReplaceChar(s, c, d))
  {
  }

  lemma ReplaceFixes(s: string, c: char, d: char)
    requires c !in s
    ensures ReplaceChar(s, c, d) == s
  {
    assert forall i :: 0 <= i < |s| ==> s[i] != c;
  }

  /** `re.sub('[...]', '', s)`: deletes every character of the class `cs`. */
  function Delete(s: string, cs: set<char>): (r: string)
    ensures |r| <= |s|
  {
    if s == [] then []
    else if s[0] in cs then Delete(s[1..], cs)
    else [s[0]] + Delete(s[1..], cs)
  }

  /** `Delete` leaves no character of the class, leaves a string with none
      of them unchanged, and drops a single character exactly when it is in
      the class; with `DeleteAppend` this fixes the result character by
      character. */
  lemma {:induction false} DeleteSpec(s: string, cs: set<char>)
    ensures Avoids(Delete(s, cs), cs)
    ensures Avoids(s, cs) ==> Delete(s, cs) == s
    ensures |s| == 1 ==> Delete(s, cs) == if s[0] in cs then [] else s
  {
    if s != [] {
      DeleteSpec(s[1..], cs);
      assert s == [s[0]] + s[1..];
    }
  }

  lemma {:induction false} DeleteAppend(a: string, b: string, cs: set<char>)
    ensures Delete(a + b, cs) == Delete(a, cs) + Delete(b, cs)
  {
    if a == [] {
      assert a + b == b;
    } else {
      assert (a + b)[0] == a[0];
      assert (a + b)[1..] == a[1..] + b;
      DeleteAppend(a[1..], b, cs);
      var head: string := if a[0] in cs then [] else [a[0]];
      assert Delete(a + b, cs) == head + Delete(a[1..] + b, cs);
      assert Delete(a, cs) == head + Delete(a[1..], cs);
    }
  }

  /** `sep` occurs in `s` starting at index `i`. */
  predicate OccursAt(s: string, sep: string, i: int) {
    0 <= i && i + |sep| <= |s| && s[i..i + |sep|] == sep
  }

  /** `s.split(sep)[0]`: the text before the first occurrence of `sep`,
      or the whole of `s` when `sep` does not occur. */
  function Before(s: string, sep: string): (r: string)
    requires sep != []
    ensures |r| <= |s| && r == s[..|r|]
  {
    if |s| < |sep| then s
    else if s[..|sep|] == sep then []
    else [s[0]] + Before(s[1..], sep)
  }

  lemma OccursAtTail(s: string, sep: string, i: int)
    requires s != [] && 1 <= i
    ensures OccursAt(s, sep, i) <==> OccursAt(s[1..], sep, i - 1)
  {
    if i + |sep| <= |s| {
      var u, v := s[i..i + |sep|], s[1..][i - 1..i - 1 + |sep|];
      assert |u| == |v|;
      forall k | 0 <= k < |u| ensures u[k] == v[k] {
        assert u[k] == s[i + k];
        assert v[k] == s[1..][i - 1 + k];
      }
      assert u == v;
    }
  }

  /** `Before` stops at the first occurrence of the separator: none starts
      inside the result, and one starts right after it unless it is all of `s`. */
  lemma {:induction false} BeforeSpec(s: string, sep: string)
    requires sep != []
    ensures forall i :: 0 <= i < |Before(s, sep)| ==> !OccursAt(s, sep, i)
    ensures Before(s, sep) == s || OccursAt(s, sep, |Before(s, sep)|)
  {
    if |s| >= |sep| && s[..|sep|] != sep {
      var r' := Before(s[1..], sep);
      BeforeSpec(s[1..], sep);
      forall i | 1 <= i <= |r'| + 1 {
        OccursAtTail(s, sep, i);
      }
    }
  }

  /** `sep.join(xs)`. */
  function Join(xs: seq<string>, sep: string): string {
    if |xs| == 0 then []
    else if |xs| == 1 then xs[0]
    else xs[0] + sep + Join(xs[1..], sep)
  }

  /** Where piece `i` of `xs` starts in `Join(xs, sep)`: after every earlier
      piece and one separator for each. */
  function JoinOffset(xs: seq<string>, sep: string, i: nat): nat
    requires i < |xs|
  {
    if i == 0 then 0 else |xs[0]| + |sep| + JoinOffset(xs[1..], sep, i - 1)
  }

  lemma OccursAtShift(a: string, b: string, w: string, p: int)
    requires OccursAt(b, w, p)
    ensures OccursAt(a + b, w, |a| + p)
  {
    assert (a + b)[|a| + p..|a| + p + |w|] == b[p..p + |w|];
  }

  lemma OccursAtFront(a: string, b: string)
    ensures OccursAt(a + b, a, 0)
  {
    assert (a + b)[..|a|] == a;
  }

  /** Consecutive pieces are one piece and one separator apart. */
  lemma {:induction false} JoinOffsetStep(xs: seq<string>, sep: string, i: nat)
    requires i + 1 < |xs|
    ensures JoinOffset(xs, sep, i + 1) == JoinOffset(xs, sep, i) + |xs[i]| + |sep|
  {
    if i > 0 {
      JoinOffsetStep(xs[1..], sep, i - 1);
    }
  }

  /** Piece `i` of a join sits at its offset; a separator follows it unless
      it is the last piece, which ends the string. */
  lemma {:induction false} JoinPieceAt(xs: seq<string>, sep: string, i: nat)
    requires i < |xs|
    ensures OccursAt(Join(xs, sep), xs[i], JoinOffset(xs, sep, i))
    ensures i < |xs| - 1 ==> OccursAt(Join(xs, sep), sep, JoinOffset(xs, sep, i) + |xs[i]|)
    ensures i == |xs| - 1 ==> JoinOffset(xs, sep, i) + |xs[i]| == |Join(xs, sep)|
  {
    var r := Join(xs, sep);
    if |xs| == 1 {
      assert r == xs[0] + [];
      OccursAtFront(xs[0], []);
    } else {
      var rest := xs[1..];
      var tail := Join(rest, sep);
      assert r == xs[0] + (sep + tail);
      if i == 0 {
        OccursAtFront(xs[0], sep + tail);
        OccursAtFront(sep, tail);
        OccursAtShift(xs[0], sep + tail, sep, 0);
      } else {
        var head, off := xs[0] + sep, JoinOffset(rest, sep, i - 1);
        assert xs[i] == rest[i - 1];
        assert JoinOffset(xs, sep, i) == |head| + off;
        JoinPieceAt(rest, sep, i - 1);
        assert r == head + tail && |r| == |head| + |tail|;
        OccursAtShift(head, tail, rest[i - 1], off);
        if i < |xs| - 1 {
          OccursAtShift(head, tail, sep, off + |rest[i - 1]|);
        }
      }
    }
  }

  /** The layout of a join: every piece in order, each but the last followed
      by the separator and then by the next piece, and the last piece ending
      the string. */
  lemma {:induction false} JoinLayout(xs: seq<string>, sep: string)
    requires |xs| > 0
    ensures forall i :: 0 <= i < |xs| ==> OccursAt(Join(xs, sep), xs[i], JoinOffset(xs, sep, i))
    ensures forall i :: 0 <= i < |xs| - 1 ==> OccursAt(Join(xs, sep), sep, JoinOffset(xs, sep, i) + |xs[i]|)
    ensures forall i {:trigger xs[i]} :: 0 <= i < |xs| - 1 ==>
      JoinOffset(xs, sep, i + 1) == JoinOffset(xs, sep, i) + |xs[i]| + |sep|
    ensures JoinOffset(xs, sep, |xs| - 1) + |xs[|xs| - 1]| == |Join(xs, sep)|
  {
    forall i | 0 <= i < |xs| {
      JoinPieceAt(xs, sep, i);
    }
    forall i | 0 <= i < |xs| - 1 {
      JoinOffsetStep(xs, sep, i);
    }
    JoinPieceAt(xs, sep, |xs| - 1);
  }

  /** Reference definition used to state what `Join` produces: the pieces of
      `s` between the occurrences of the character `c`, as `s.split(c)`. */
  function SplitOn(s: string, c: char): (r: seq<string>)
    ensures |r| > 0
  {
    if s == [] then [[]]
    else
      var rest := SplitOn(s[1..], c);
      if s[0] == c then [[]] + rest else [[s[0]] + rest[0]] + rest[1..]
  }

  lemma {:induction false} SplitOnAppend(a: string, c: char, b: string)
    requires c !in a
    ensures SplitOn(a + [c] + b, c) == [a] + SplitOn(b, c)
  {
    if a == [] {
      assert a + [c] + b == [c] + b;
      assert ([c] + b)[1..] == b;
    } else {
      assert (a + [c] + b)[1..] == a[1..] + [c] + b;
      assert a[0] != c && (a + [c] + b)[0] == a[0];
      SplitOnAppend(a[1..], c, b);
      assert [a[0]] + a[1..] == a;
    }
  }

  lemma {:induction false} SplitOnNoSep(a: string, c: char)
    requires c !in a
    ensures SplitOn(a, c) == [a]
  {
    if a != [] {
      SplitOnNoSep(a[1..], c);
      assert [a[0]] + a[1..] == a;
    }
  }

  /** Splitting a join on its one-character separator gives the pieces back,
      provided no piece contains the separator. */
  lemma {:induction false} SplitJoin(xs: seq<string>, c: char)
    requires |xs| > 0
    requires forall i :: 0 <= i < |xs| ==> c !in xs[i]
    ensures SplitOn(Join(xs, [c]), c) == xs
  {
    if |xs| == 1 {
      SplitOnNoSep(xs[0], c);
    } else {
      var rest := Join(xs[1..], [c]);
      assert Join(xs, [c]) == xs[0] + [c] + rest;
      SplitJoin(xs[1..], c);
      SplitOnAppend(xs[0], c, rest);
      assert [xs[0]] + xs[1..] == xs;
    }
  }
}
