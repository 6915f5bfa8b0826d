/** The procedure template under `trimIndent` when the body has several
    lines. The template is a blank line, three text lines `a`, `b`, `e`
    indented by `k` spaces around the body indented by `k + 4`, and a last
    line of `k - 4` spaces (`k` is sixteen in the source). The body's
    continuation lines carry only their own indentation, so they take part
    in the least indentation. */
module TemplateText {
  import opened Wrappers
  import opened Strings
  import opened KotlinText

  /** The template's lines before they are joined: the body is one
      element, line breaks and all. */
  function Frame(k: nat, a: string, b: string, body: string, e: string): seq<string>
    requires k >= 4
  {
    ["", Spaces(k) + a, Spaces(k) + b, Spaces(k + 4) + body, Spaces(k) + e, Spaces(k - 4)]
  }

  /** The lines of the joined template: the body's lines in place of the
      body. */
  function SplitFrame(k: nat, a: string, b: string, body: string, e: string): seq<string>
    requires k >= 4
  {
    var bls := Lines(body);
    FrameOf(k, a, b, bls[0], bls[1..], e)
  }

  /** The template's lines around a body whose first line is `x` and whose
      further lines are `r`. */
  function FrameOf(k: nat, a: string, b: string, x: string, r: seq<string>, e: string): seq<string>
    requires k >= 4
  {
    ["", Spaces(k) + a, Spaces(k) + b, Spaces(k + 4) + x] + r + [Spaces(k) + e, Spaces(k - 4)]
  }

  /** What `trimIndent` cuts off every line: `k`, or less when a
      continuation line of the body is indented less. The body's first
      line follows `k + 4` spaces, so it never sets the cut. */
  function FrameCut(k: nat, body: string): (m: nat)
    ensures m <= k
  {
    match MinIndent(Lines(body)[1..])
    case Some(w) => if w < k then w else k
    case None => k
  }

  /** The lines `trimIndent` keeps, each cut by `m`. */
  function TrimmedFrame(k: nat, a: string, b: string, body: string, e: string): seq<string>
  {
    var bls := Lines(body);
    TrimmedOf(k, FrameCut(k, body), a, b, bls[0], bls[1..], e)
  }

  /** The kept lines of `FrameOf(k, a, b, x, r, e)`, each cut by `m`. */
  function TrimmedOf(k: nat, m: nat, a: string, b: string, x: string, r: seq<string>, e: string): seq<string>
    requires m <= k
  {
    [Spaces(k - m) + a, Spaces(k - m) + b, Spaces(k + 4 - m) + x] + CutAll(r, m) + [Spaces(k - m) + e]
  }

  /** A text line starts with a character that is not whitespace and has
      no line break. */
  predicate TextLine(x: string)
  {
    x != [] && !IsWhitespace(x[0]) && '\n' !in x
  }

  lemma LinesOne(x: string)
    requires '\n' !in x
    ensures Lines(x) == [x]
  {
    assert IndexOf(x, '\n') == |x|;
  }

  lemma SpacesOneLine(n: nat, x: string)
    requires '\n' !in x
    ensures '\n' !in Spaces(n) + x
  {
    var t := Spaces(n) + x;
    forall k | 0 <= k < |t|
      ensures t[k] != '\n'
    {
      if k >= n {
        assert t[k] == x[k - n];
      }
    }
  }

  /** The joined template splits into `SplitFrame`. */
  lemma FrameLines(k: nat, a: string, b: string, body: string, e: string)
    requires k >= 4 && '\n' !in a && '\n' !in b && '\n' !in e
    ensures Lines(Join(Frame(k, a, b, body, e), "\n")) == SplitFrame(k, a, b, body, e)
  {
    var c := '\n';
    var tl := Frame(k, a, b, body, e);
    SpacesOneLine(k, a);
    SpacesOneLine(k, b);
    SpacesOneLine(k, e);
    SpacesOneLine(k - 4, "");
    assert Spaces(k - 4) + "" == Spaces(k - 4);
    assert "\n" == [c];
    var r4 := tl[4] + [c] + tl[5];
    var r3 := tl[3] + [c] + r4;
    var r2 := tl[2] + [c] + r3;
    var r1 := tl[1] + [c] + r2;
    assert Join(tl[4..], "\n") == r4;
    assert Join(tl[3..], "\n") == r3;
    assert Join(tl[2..], "\n") == r2;
    assert Join(tl[1..], "\n") == r1;
    assert Join(tl, "\n") == tl[0] + [c] + r1;
    var bls := Lines(body);
    var t := [Spaces(k + 4) + bls[0]] + bls[1..];
    var y := [tl[4]] + [tl[5]];
    LinesOne(tl[0]);
    LinesOne(tl[1]);
    LinesOne(tl[2]);
    LinesOne(tl[4]);
    LinesOne(tl[5]);
    SplitOnPrefix(Spaces(k + 4), body, c);
    assert SplitOn(tl[3], c) == t;
    SplitOnConcat(tl[4], tl[5], c);
    assert SplitOn(r4, c) == y;
    SplitOnConcat(tl[3], r4, c);
    assert SplitOn(r3, c) == t + y;
    SplitOnConcat(tl[2], r3, c);
    assert SplitOn(r2, c) == [tl[2]] + (t + y);
    SplitOnConcat(tl[1], r2, c);
    assert SplitOn(r1, c) == [tl[1]] + ([tl[2]] + (t + y));
    SplitOnConcat(tl[0], r1, c);
    Regroup(tl[0], tl[1], tl[2], Spaces(k + 4) + bls[0], bls[1..], tl[4], tl[5]);
  }

  /** The nested lists of a split template read as one list. */
  lemma Regroup(x0: string, x1: string, x2: string, x3: string, r: seq<string>, y0: string, y1: string)
    ensures [x0] + ([x1] + ([x2] + (([x3] + r) + ([y0] + [y1])))) == [x0, x1, x2, x3] + r + [y0, y1]
  {
  }

  /** Where each part of `p + m + q` lands. */
  lemma Layout(p: seq<string>, m: seq<string>, q: seq<string>)
    ensures var s := p + m + q;
      |s| == |p| + |m| + |q|
      && (forall i :: 0 <= i < |p| ==> s[i] == p[i])
      && (forall i :: 0 <= i < |m| ==> s[|p| + i] == m[i])
      && (forall i :: 0 <= i < |q| ==> s[|p| + |m| + i] == q[i])
  {
  }

  /** The least indentation of those lines is `FrameCut(k, body)`. */
  lemma FrameIndent(k: nat, a: string, b: string, body: string, e: string)
    requires k >= 4 && TextLine(a) && TextLine(b) && TextLine(e)
    ensures MinIndent(SplitFrame(k, a, b, body, e)) == Some(FrameCut(k, body))
  {
    var bls := Lines(body);
    CutBound(k, body);
    IndentLines(k, FrameCut(k, body), a, b, bls[0], bls[1..], e);
  }

  /** No further body line goes below the cut, and the cut is `k` or the
      indentation of one of them. */
  lemma CutBound(k: nat, body: string)
    ensures var r := Lines(body)[1..];
      var m := FrameCut(k, body);
      IndentsAbove(r, m) && (m == k || exists j :: 0 <= j < |r| && !IsBlank(r[j]) && IndentWidth(r[j]) == m)
  {
  }

  /** The template's least indentation is `m` when the body's further lines
      `r` go no lower and either `m` is `k` or one of them is at `m`. */
  lemma IndentLines(k: nat, m: nat, a: string, b: string, x: string, r: seq<string>, e: string)
    requires 4 <= k && m <= k && TextLine(a)
    requires IndentsAbove(r, m)
    requires m == k || exists j :: 0 <= j < |r| && !IsBlank(r[j]) && IndentWidth(r[j]) == m
    ensures MinIndent(FrameOf(k, a, b, x, r, e)) == Some(m)
  {
    var p := ["", Spaces(k) + a, Spaces(k) + b, Spaces(k + 4) + x];
    var q := [Spaces(k) + e, Spaces(k - 4)];
    FrameEndsAbove(k, a, b, x, e, m);
    if m == k {
      IndentWidthSpaces(k, a);
      SpacesBlank(k, a);
      assert (p + r + q)[1] == p[1];
      MinOfParts(p, r, q, m, 1);
    } else {
      var j :| 0 <= j < |r| && !IsBlank(r[j]) && IndentWidth(r[j]) == m;
      assert (p + r + q)[4 + j] == r[j];
      MinOfParts(p, r, q, m, 4 + j);
    }
  }

  /** A line of `p + r + q` at the bound `m` that no line goes below is the
      least indentation. */
  lemma MinOfParts(p: seq<string>, r: seq<string>, q: seq<string>, m: nat, j: nat)
    requires IndentsAbove(p, m) && IndentsAbove(r, m) && IndentsAbove(q, m)
    requires j < |p + r + q| && !IsBlank((p + r + q)[j]) && IndentWidth((p + r + q)[j]) == m
    ensures MinIndent(p + r + q) == Some(m)
  {
    AboveConcat(p, r, q, m);
    MinIndentIs(p + r + q, j, m);
  }

  /** No non-blank line is indented less than `m`. */
  predicate IndentsAbove(ls: seq<string>, m: nat)
  {
    forall i :: 0 <= i < |ls| && !IsBlank(ls[i]) ==> m <= IndentWidth(ls[i])
  }

  lemma AboveConcat(p: seq<string>, r: seq<string>, q: seq<string>, m: nat)
    requires IndentsAbove(p, m) && IndentsAbove(r, m) && IndentsAbove(q, m)
    ensures IndentsAbove(p + r + q, m)
  {
    Layout(p, r, q);
    var s := p + r + q;
    forall i | 0 <= i < |s| && !IsBlank(s[i])
      ensures m <= IndentWidth(s[i])
    {
      if i < |p| {
        assert s[i] == p[i];
      } else if i < |p| + |r| {
        assert s[i] == r[i - |p|];
      } else {
        assert s[i] == q[i - |p| - |r|];
      }
    }
  }

  /** The template's own lines are indented by `k` or more, or blank. */
  lemma FrameEndsAbove(k: nat, a: string, b: string, x: string, e: string, m: nat)
    requires 4 <= k && m <= k
    ensures IndentsAbove(["", Spaces(k) + a, Spaces(k) + b, Spaces(k + 4) + x], m)
    ensures IndentsAbove([Spaces(k) + e, Spaces(k - 4)], m)
  {
    IndentWidthSpaces(k, a);
    IndentWidthSpaces(k, b);
    IndentWidthSpaces(k + 4, x);
    IndentWidthSpaces(k, e);
    SpacesBlank(k - 4, "");
    assert Spaces(k - 4) + "" == Spaces(k - 4);
    assert IsBlank("");
  }

  /** The kept lines, each cut by `FrameCut(k, body)`, are `TrimmedFrame`. */
  lemma FrameCuts(k: nat, a: string, b: string, body: string, e: string)
    requires k >= 4
    ensures var ls := SplitFrame(k, a, b, body, e);
      CutAll(ls[1..|ls| - 1], FrameCut(k, body)) == TrimmedFrame(k, a, b, body, e)
  {
    var bls := Lines(body);
    CutLines(k, FrameCut(k, body), a, b, bls[0], bls[1..], e);
  }

  /** Cutting `m <= k` off the template's lines, for any body lines `x`
      and `r`. */
  lemma CutLines(k: nat, m: nat, a: string, b: string, x: string, r: seq<string>, e: string)
    requires 4 <= k && m <= k
    ensures var ls := FrameOf(k, a, b, x, r, e);
      CutAll(ls[1..|ls| - 1], m) == TrimmedOf(k, m, a, b, x, r, e)
  {
    var p := [Spaces(k) + a, Spaces(k) + b, Spaces(k + 4) + x];
    var q := [Spaces(k) + e];
    assert ["", Spaces(k) + a, Spaces(k) + b, Spaces(k + 4) + x] + r + [Spaces(k) + e, Spaces(k - 4)] == [""] + p + r + q + [Spaces(k - 4)];
    CutParts("", p, r, q, Spaces(k - 4), m);
    CutSpaces(k, m, a);
    CutSpaces(k, m, b);
    CutSpaces(k + 4, m, x);
    CutSpaces(k, m, e);
    CutFew(p[0], p[1], p[2], q[0], m);
  }

  lemma CutFew(x: string, y: string, z: string, w: string, n: nat)
    ensures CutAll([x, y, z], n) == [Cut(x, n), Cut(y, n), Cut(z, n)]
    ensures CutAll([w], n) == [Cut(w, n)]
  {
  }

  lemma CutParts(x: string, p: seq<string>, r: seq<string>, q: seq<string>, y: string, n: nat)
    ensures var s := [x] + p + r + q + [y];
      CutAll(s[1..|s| - 1], n) == CutAll(p, n) + CutAll(r, n) + CutAll(q, n)
  {
    Middle(x, p, r, q, y);
    CutAllConcat(p, r, q, n);
  }

  /** Dropping the first and last element of `[x] + p + r + q + [y]`. */
  lemma Middle(x: string, p: seq<string>, r: seq<string>, q: seq<string>, y: string)
    ensures var s := [x] + p + r + q + [y];
      s[1..|s| - 1] == p + r + q
  {
    var s := [x] + p + r + q + [y];
    assert s == [x] + (p + r + q) + [y];
  }

  /** Cutting distributes over concatenation. */
  lemma CutAllConcat(p: seq<string>, r: seq<string>, q: seq<string>, n: nat)
    ensures CutAll(p + r + q, n) == CutAll(p, n) + CutAll(r, n) + CutAll(q, n)
  {
    CutAllAppend(p, r, n);
    CutAllAppend(p + r, q, n);
  }

  lemma {:induction false} CutAllAppend(x: seq<string>, y: seq<string>, n: nat)
    ensures CutAll(x + y, n) == CutAll(x, n) + CutAll(y, n)
    decreases |x|
  {
    if x == [] {
      assert x + y == y;
    } else {
      assert (x + y)[0] == x[0] && (x + y)[1..] == x[1..] + y;
      assert CutAll(x + y, n) == [Cut(x[0], n)] + CutAll(x[1..] + y, n);
      CutAllAppend(x[1..], y, n);
      Assoc([Cut(x[0], n)], CutAll(x[1..], n), CutAll(y, n));
    }
  }


  /** No kept line holds a line break. */
  lemma TrimmedOneLineEach(k: nat, a: string, b: string, body: string, e: string)
    requires '\n' !in a && '\n' !in b && '\n' !in e
    ensures OneLineEach(TrimmedFrame(k, a, b, body, e))
  {
    var bls := Lines(body);
    var m := FrameCut(k, body);
    var p := [Spaces(k - m) + a, Spaces(k - m) + b, Spaces(k + 4 - m) + bls[0]];
    var cs := CutAll(bls[1..], m);
    var q := [Spaces(k - m) + e];
    ThreeOneLine(k - m, a, b, bls[0]);
    SpacesOneLine(k - m, e);
    assert OneLineEach(q);
    CutAllOneLine(bls[1..], m);
    OneLineEachConcat(p, cs, q);
    assert TrimmedFrame(k, a, b, body, e) == p + cs + q;
  }

  lemma ThreeOneLine(n: nat, a: string, b: string, x: string)
    requires '\n' !in a && '\n' !in b && '\n' !in x
    ensures OneLineEach([Spaces(n) + a, Spaces(n) + b, Spaces(n + 4) + x])
  {
    SpacesOneLine(n, a);
    SpacesOneLine(n, b);
    SpacesOneLine(n + 4, x);
  }

  lemma CutAllOneLine(ls: seq<string>, m: nat)
    requires OneLineEach(ls)
    ensures OneLineEach(CutAll(ls, m))
  {
    forall j | 0 <= j < |ls|
      ensures '\n' !in CutAll(ls, m)[j]
    {
      CutKeeps(ls[j], m, '\n');
    }
  }

  /** No element holds a line break. */
  predicate OneLineEach(xs: seq<string>)
  {
    forall i :: 0 <= i < |xs| ==> '\n' !in xs[i]
  }

  lemma OneLineEachConcat(p: seq<string>, m: seq<string>, q: seq<string>)
    requires OneLineEach(p) && OneLineEach(m) && OneLineEach(q)
    ensures OneLineEach(p + m + q)
  {
    var s := p + m + q;
    forall i | 0 <= i < |s|
      ensures '\n' !in s[i]
    {
      if i < |p| {
        assert s[i] == p[i];
      } else if i < |p| + |m| {
        assert s[i] == m[i - |p|];
      } else {
        assert s[i] == q[i - |p| - |m|];
      }
    }
  }

  /** The trimmed template, whatever the body: the three text lines keep
      `k - m` spaces, the body's first line `k + 4 - m`, and each
      continuation line loses its first `m` characters, where `m` is
      `FrameCut(k, body)`. */
  lemma TrimFrame(k: nat, a: string, b: string, body: string, e: string)
    requires k >= 4 && TextLine(a) && TextLine(b) && TextLine(e)
    ensures Lines(TrimIndent(Join(Frame(k, a, b, body, e), "\n"))) == TrimmedFrame(k, a, b, body, e)
  {
    var ls := SplitFrame(k, a, b, body, e);
    var out := TrimmedFrame(k, a, b, body, e);
    FrameLines(k, a, b, body, e);
    FrameIndent(k, a, b, body, e);
    SpacesBlank(k - 4, "");
    assert Spaces(k - 4) + "" == ls[|ls| - 1];
    ReindentInner(ls, FrameCut(k, body));
    FrameCuts(k, a, b, body, e);
    TrimmedOneLineEach(k, a, b, body, e);
    assert "\n" == ['\n'];
    SplitOnJoin(out, '\n');
  }

  /** A one-line body is cut by `k`. */
  lemma OneLineCut(k: nat, body: string)
    requires '\n' !in body
    ensures Lines(body) == [body] && FrameCut(k, body) == k
  {
    LinesOne(body);
    assert Lines(body)[1..] == [];
  }

  /** Lines each indented by `n` spaces. */
  function Indent(n: nat, ts: seq<string>): seq<string>
  {
    seq(|ts|, i requires 0 <= i < |ts| => Spaces(n) + ts[i])
  }

  /** A body written as a block of its own: a line break, text lines
      indented by `n`, and a last line of `n` spaces. With `n < k` the cut
      is `n`, so the text lines come out flush left, an empty line follows
      them, and the template's own lines keep `k - n` spaces. */
  lemma BlockBody(k: nat, n: nat, a: string, b: string, ts: seq<string>, e: string)
    requires 4 <= k && n < k && TextLine(a) && TextLine(b) && TextLine(e)
    requires |ts| > 0 && forall i :: 0 <= i < |ts| ==> TextLine(ts[i])
    ensures var body := Join([""] + Indent(n, ts) + [Spaces(n)], "\n");
      FrameCut(k, body) == n
      && TrimmedFrame(k, a, b, body, e) == [Spaces(k - n) + a, Spaces(k - n) + b, Spaces(k + 4 - n)] + ts + ["", Spaces(k - n) + e]
  {
    var body := Join([""] + Indent(n, ts) + [Spaces(n)], "\n");
    BlockLines(n, ts);
    BlockFrame(k, n, a, b, ts, e, body);
  }

  lemma BlockFrame(k: nat, n: nat, a: string, b: string, ts: seq<string>, e: string, body: string)
    requires n < k && |ts| > 0 && forall i :: 0 <= i < |ts| ==> TextLine(ts[i])
    requires Lines(body) == [""] + Indent(n, ts) + [Spaces(n)]
    ensures FrameCut(k, body) == n
    ensures TrimmedFrame(k, a, b, body, e) == [Spaces(k - n) + a, Spaces(k - n) + b, Spaces(k + 4 - n)] + ts + ["", Spaces(k - n) + e]
  {
    assert Lines(body)[1..] == Indent(n, ts) + [Spaces(n)];
    BlockIndent(n, ts);
    BlockCut(n, ts);
    var x := Spaces(k + 4 - n);
    assert x + Lines(body)[0] == x;
    Shift(Spaces(k - n) + a, Spaces(k - n) + b, x, ts, Spaces(k - n) + e);
  }

  lemma Shift(x0: string, x1: string, x2: string, ts: seq<string>, y: string)
    ensures [x0, x1, x2] + (ts + [""]) + [y] == [x0, x1, x2] + ts + ["", y]
  {
  }

  /** The block's least indentation is `n`. */
  lemma BlockIndent(n: nat, ts: seq<string>)
    requires |ts| > 0 && forall i :: 0 <= i < |ts| ==> TextLine(ts[i])
    ensures MinIndent(Indent(n, ts) + [Spaces(n)]) == Some(n)
  {
    var ls := Indent(n, ts) + [Spaces(n)];
    forall i | 0 <= i < |ls|
      ensures !IsBlank(ls[i]) ==> n <= IndentWidth(ls[i])
    {
      if i < |ts| {
        IndentWidthSpaces(n, ts[i]);
      } else {
        SpacesBlank(n, "");
        assert Spaces(n) + "" == ls[i];
      }
    }
    assert ls[0] == Spaces(n) + ts[0];
    IndentWidthSpaces(n, ts[0]);
    SpacesBlank(n, ts[0]);
    MinIndentIs(ls, 0, n);
  }

  /** The block splits back into its lines. */
  lemma BlockLines(n: nat, ts: seq<string>)
    requires forall i :: 0 <= i < |ts| ==> TextLine(ts[i])
    ensures var ls := [""] + Indent(n, ts) + [Spaces(n)];
      Lines(Join(ls, "\n")) == ls
  {
    var ls := [""] + Indent(n, ts) + [Spaces(n)];
    forall i | 0 <= i < |ls|
      ensures '\n' !in ls[i]
    {
      if 0 < i < |ls| - 1 {
        SpacesOneLine(n, ts[i - 1]);
      } else if i == |ls| - 1 {
        SpacesOneLine(n, "");
        assert Spaces(n) + "" == ls[i];
      }
    }
    assert "\n" == ['\n'];
    SplitOnJoin(ls, '\n');
  }

  /** Cutting `n` off the block's lines leaves the text lines and an
      empty line. */
  lemma BlockCut(n: nat, ts: seq<string>)
    ensures CutAll(Indent(n, ts) + [Spaces(n)], n) == ts + [""]
  {
    var ls := Indent(n, ts) + [Spaces(n)];
    var r := CutAll(ls, n);
    forall i | 0 <= i < |ls|
      ensures r[i] == (ts + [""])[i]
    {
      if i < |ts| {
        CutSpaces(n, n, ts[i]);
        assert Spaces(0) + ts[i] == ts[i];
      } else {
        assert Spaces(n)[n..] == "";
      }
    }
  }

}
