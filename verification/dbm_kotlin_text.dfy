/** Kotlin's `String.trimIndent()`, through which the procedure templates
    pass their raw string literals: split into lines, find the least
    indentation of the non-blank lines, drop a blank first and a blank last
    line, cut that indentation off every other line and join the lines
    again. */
module KotlinText {
  import opened Wrappers
  import opened Strings

  /** Space, tab, LF, CR, VT and FF: the whitespace the template can contain. */
  predicate IsWhitespace(c: char)
  {
    c == ' ' || c == '\t' || c == '\n' || c == '\r' || c == 11 as char || c == 12 as char
  }

  /** `isBlank`: whitespace only, or empty. */
  predicate IsBlank(s: string)
  {
    forall k :: 0 <= k < |s| ==> IsWhitespace(s[k])
  }

  function Lines(s: string): seq<string>
  {
    SplitOn(s, '\n')
  }

  /** `indentWidth`: the length of the leading run of whitespace. */
  function IndentWidth(s: string): (n: nat)
    ensures n <= |s|
    ensures forall k :: 0 <= k < n ==> IsWhitespace(s[k])
    ensures n < |s| ==> !IsWhitespace(s[n])
  {
    if s == [] then 0 else if IsWhitespace(s[0]) then 1 + IndentWidth(s[1..]) else 0
  }

  /** The least indentation of the non-blank lines; `None` when every line
      is blank. */
  function MinIndent(ls: seq<string>): (r: Option<nat>)
    ensures r.None? <==> forall i {:trigger IsBlank(ls[i])} :: 0 <= i < |ls| ==> IsBlank(ls[i])
    ensures r.Some? ==> forall i {:trigger IndentWidth(ls[i])} :: 0 <= i < |ls| && !IsBlank(ls[i]) ==> r.value <= IndentWidth(ls[i])
    ensures r.Some? ==> exists i :: 0 <= i < |ls| && !IsBlank(ls[i]) && IndentWidth(ls[i]) == r.value
  {
    if ls == [] then None
    else
      var rest := MinIndent(ls[1..]);
      assert forall i :: 1 <= i < |ls| ==> ls[i] == ls[1..][i - 1];
      if IsBlank(ls[0]) then rest
      else if rest.None? then Some(IndentWidth(ls[0]))
      else if IndentWidth(ls[0]) <= rest.value then Some(IndentWidth(ls[0]))
      else rest
  }

  /** `drop(n)`: the line without its first `n` characters. */
  function Cut(line: string, n: nat): string
  {
    if n <= |line| then line[n..] else ""
  }

  /** Cutting a line adds no character to it. */
  lemma CutKeeps(line: string, n: nat, c: char)
    requires c !in line
    ensures c !in Cut(line, n)
  {
    if n <= |line| {
      forall k | 0 <= k < |line| - n
        ensures line[n..][k] != c
      {
        assert line[n..][k] == line[n + k];
      }
    }
  }

  /** Only a blank first or last line is dropped. */
  predicate Kept(ls: seq<string>, i: nat)
    requires i < |ls|
  {
    !((i == 0 || i == |ls| - 1) && IsBlank(ls[i]))
  }

  /** `reindent` from line `i` on, with the empty new indent. */
  function Reindent(ls: seq<string>, n: nat, i: nat): seq<string>
    requires i <= |ls|
    decreases |ls| - i
  {
    if i == |ls| then [] else (if Kept(ls, i) then [Cut(ls[i], n)] else []) + Reindent(ls, n, i + 1)
  }

  function TrimIndent(s: string): string
  {
    var ls := Lines(s);
    var n := match MinIndent(ls) case None => 0 case Some(m) => m;
    Join(Reindent(ls, n, 0), "\n")
  }

  // Facts used to evaluate a template.

  /** `n` spaces. */
  function Spaces(n: nat): (r: string)
    ensures |r| == n
    ensures forall k :: 0 <= k < n ==> r[k] == ' '
  {
    if n == 0 then "" else " " + Spaces(n - 1)
  }

  /** Leading spaces add to the indentation. */
  lemma {:induction false} IndentWidthSpaces(n: nat, s: string)
    ensures IndentWidth(Spaces(n) + s) == n + IndentWidth(s)
  {
    if n > 0 {
      var t := Spaces(n) + s;
      assert t[0] == ' ' && IsWhitespace(t[0]);
      assert t[1..] == Spaces(n - 1) + s;
      IndentWidthSpaces(n - 1, s);
    } else {
      assert Spaces(n) + s == s;
    }
  }

  /** Cutting exactly the leading spaces leaves the rest of the line. */
  lemma CutSpaces(n: nat, m: nat, s: string)
    requires m <= n
    ensures Cut(Spaces(n) + s, m) == Spaces(n - m) + s
  {
    assert (Spaces(n) + s)[m..] == Spaces(n - m) + s;
  }

  lemma SpacesBlank(n: nat, s: string)
    ensures IsBlank(Spaces(n) + s) <==> IsBlank(s)
  {
    var t := Spaces(n) + s;
    if IsBlank(s) {
      forall k | 0 <= k < |t|
        ensures IsWhitespace(t[k])
      {
        if k >= n {
          assert t[k] == s[k - n];
        }
      }
    } else {
      var k :| 0 <= k < |s| && !IsWhitespace(s[k]);
      assert t[n + k] == s[k];
    }
  }

  /** The least indentation is the one a non-blank line attains and none
      goes below. */
  lemma {:induction false} MinIndentIs(ls: seq<string>, j: nat, m: nat)
    requires j < |ls| && !IsBlank(ls[j]) && IndentWidth(ls[j]) == m
    requires forall i :: 0 <= i < |ls| && !IsBlank(ls[i]) ==> m <= IndentWidth(ls[i])
    ensures MinIndent(ls) == Some(m)
  {
    var tail := ls[1..];
    forall i | 0 <= i < |tail| && !IsBlank(tail[i])
      ensures m <= IndentWidth(tail[i])
    {
      assert tail[i] == ls[i + 1];
    }
    var rest := MinIndent(tail);
    if j == 0 {
      MinIndentAbove(tail, m);
      if rest.Some? {
        assert m <= rest.value;
        assert MinIndent(ls) == Some(IndentWidth(ls[0]));
      } else {
        assert MinIndent(ls) == Some(IndentWidth(ls[0]));
      }
    } else {
      assert tail[j - 1] == ls[j];
      MinIndentIs(tail, j - 1, m);
      assert rest == Some(m);
      if IsBlank(ls[0]) {
        assert MinIndent(ls) == rest;
      } else {
        assert m <= IndentWidth(ls[0]);
      }
    }
  }

  /** No line below `m` keeps the least indentation at `m` or more. */
  lemma {:induction false} MinIndentAbove(ls: seq<string>, m: nat)
    requires forall i :: 0 <= i < |ls| && !IsBlank(ls[i]) ==> m <= IndentWidth(ls[i])
    ensures MinIndent(ls).Some? ==> m <= MinIndent(ls).value
  {
    if ls != [] {
      var tail := ls[1..];
      forall i | 0 <= i < |tail| && !IsBlank(tail[i])
        ensures m <= IndentWidth(tail[i])
      {
        assert tail[i] == ls[i + 1];
      }
      MinIndentAbove(tail, m);
    }
  }

  /** Every line cut by `n`. */
  function CutAll(ls: seq<string>, n: nat): (r: seq<string>)
    ensures |r| == |ls|
    ensures forall i {:trigger r[i]} :: 0 <= i < |ls| ==> r[i] == Cut(ls[i], n)
  {
    if ls == [] then [] else [Cut(ls[0], n)] + CutAll(ls[1..], n)
  }

  /** Lines with a blank first and last line keep the ones between, each
      cut by `n`. */
  lemma ReindentInner(ls: seq<string>, n: nat)
    requires |ls| >= 2 && IsBlank(ls[0]) && IsBlank(ls[|ls| - 1])
    ensures Reindent(ls, n, 0) == CutAll(ls[1..|ls| - 1], n)
  {
    ReindentFrom(ls, n, 1);
    assert !Kept(ls, 0);
  }

  /** From line `i` on, every line but the blank last one is kept. */
  lemma {:induction false} ReindentFrom(ls: seq<string>, n: nat, i: nat)
    requires 1 <= i <= |ls| - 1 && IsBlank(ls[|ls| - 1])
    ensures Reindent(ls, n, i) == CutAll(ls[i..|ls| - 1], n)
    decreases |ls| - i
  {
    if i == |ls| - 1 {
      assert !Kept(ls, i);
      assert Reindent(ls, n, i + 1) == [];
    } else {
      ReindentFrom(ls, n, i + 1);
      assert Kept(ls, i);
      assert ls[i..|ls| - 1][1..] == ls[i + 1..|ls| - 1];
    }
  }

  /** Six lines with a blank first and last line keep the four between,
      each cut by `n`. */
  lemma ReindentSix(ls: seq<string>, n: nat)
    requires |ls| == 6 && IsBlank(ls[0]) && IsBlank(ls[5])
    ensures Reindent(ls, n, 0) == [Cut(ls[1], n), Cut(ls[2], n), Cut(ls[3], n), Cut(ls[4], n)]
  {
    assert Reindent(ls, n, 5) == [];
    assert Reindent(ls, n, 4) == [Cut(ls[4], n)];
    assert Reindent(ls, n, 3) == [Cut(ls[3], n), Cut(ls[4], n)];
    assert Reindent(ls, n, 2) == [Cut(ls[2], n), Cut(ls[3], n), Cut(ls[4], n)];
    assert Reindent(ls, n, 1) == [Cut(ls[1], n), Cut(ls[2], n), Cut(ls[3], n), Cut(ls[4], n)];
    assert !Kept(ls, 0);
  }
}
