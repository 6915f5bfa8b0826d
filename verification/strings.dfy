/** String helpers shared by the models: character counting, splitting on a
    character, joining with a separator (Kotlin's `joinToString`) and the
    decimal rendering of integers used inside string templates. */
module Strings {

  /** Number of occurrences of `c` in `s`. */
  function Count(s: string, c: char): nat
  {
    if s == [] then 0
    else (if s[0] == c then 1 else 0) + Count(s[1..], c)
  }

  lemma {:induction false} CountConcat(a: string, b: string, c: char)
    ensures Count(a + b, c) == Count(a, c) + Count(b, c)
  {
    if a == [] {
      assert a + b == b;
    } else {
      assert (a + b)[1..] == a[1..] + b;
      CountConcat(a[1..], b, c);
    }
  }

  lemma {:induction false} CountAbsent(s: string, c: char)
    ensures Count(s, c) == 0 <==> c !in s
  {
    if s != [] {
      CountAbsent(s[1..], c);
      assert s == [s[0]] + s[1..];
    }
  }

  /** Index of the first `c` in `s`, or `|s|` when there is none. */
  function IndexOf(s: string, c: char): (i: nat)
    ensures i <= |s|
    ensures i < |s| ==> s[i] == c
    ensures forall k :: 0 <= k < i ==> s[k] != c
  {
    if s == [] then 0
    else if s[0] == c then 0
    else 1 + IndexOf(s[1..], c)
  }

  /** The pieces of `s` between occurrences of `c` (Kotlin's `split(c)`). */
  function SplitOn(s: string, c: char): (pieces: seq<string>)
    ensures |pieces| == Count(s, c) + 1
    ensures forall k :: 0 <= k < |pieces| ==> c !in pieces[k]
    decreases |s|
  {
    var i := IndexOf(s, c);
    if i == |s| then
      CountAbsent(s, c);
      [s]
    else
      assert s == s[..i] + ([c] + s[i + 1..]);
      CountConcat(s[..i], [c] + s[i + 1..], c);
      CountConcat([c], s[i + 1..], c);
      CountAbsent(s[..i], c);
      [s[..i]] + SplitOn(s[i + 1..], c)
  }

  /** Kotlin's `joinToString(separator = sep)` over strings. */
  function Join(xs: seq<string>, sep: string): string
  {
    if xs == [] then ""
    else if |xs| == 1 then xs[0]
    else xs[0] + sep + Join(xs[1..], sep)
  }

  /** Total count of `c` over all strings of `xs`. */
  function CountAll(xs: seq<string>, c: char): nat
  {
    if xs == [] then 0 else Count(xs[0], c) + CountAll(xs[1..], c)
  }

  lemma {:induction false} CountAllConcat(xs: seq<string>, ys: seq<string>, c: char)
    ensures CountAll(xs + ys, c) == CountAll(xs, c) + CountAll(ys, c)
  {
    if xs == [] {
      assert xs + ys == ys;
    } else {
      assert (xs + ys)[1..] == xs[1..] + ys;
      CountAllConcat(xs[1..], ys, c);
    }
  }

  /** A character found in no part and not in the separator is not in the
      join. */
  lemma {:induction false} NotInJoin(xs: seq<string>, sep: string, c: char)
    requires c !in sep
    requires forall k :: 0 <= k < |xs| ==> c !in xs[k]
    ensures c !in Join(xs, sep)
  {
    if |xs| > 1 {
      NotInJoin(xs[1..], sep, c);
    }
  }

  /** When every part holds `c` once, the parts hold it `|xs|` times. */
  lemma {:induction false} CountAllOnce(xs: seq<string>, c: char)
    requires forall k :: 0 <= k < |xs| ==> Count(xs[k], c) == 1
    ensures CountAll(xs, c) == |xs|
  {
    if xs != [] {
      CountAllOnce(xs[1..], c);
    }
  }

  /** Joining adds one copy of the separator between neighbours. */
  lemma {:induction false} CountJoin(xs: seq<string>, sep: string, c: char)
    ensures |xs| > 0 ==> Count(Join(xs, sep), c) == CountAll(xs, c) + (|xs| - 1) * Count(sep, c)
    ensures xs == [] ==> Join(xs, sep) == ""
  {
    if |xs| == 1 {
      assert xs[1..] == [];
    } else if |xs| > 1 {
      var n := |xs| - 1;
      var b := Count(sep, c);
      CountJoin(xs[1..], sep, c);
      CountConcat(xs[0], sep, c);
      CountConcat(xs[0] + sep, Join(xs[1..], sep), c);
      assert Count(Join(xs, sep), c) == Count(xs[0], c) + b + Count(Join(xs[1..], sep), c);
      assert Count(Join(xs[1..], sep), c) == CountAll(xs[1..], c) + (n - 1) * b;
      assert CountAll(xs, c) == Count(xs[0], c) + CountAll(xs[1..], c);
      assert n * b == (n - 1) * b + b;
    }
  }

  /** Joining the pieces of a split restores the string. */
  lemma {:induction false} JoinSplitOn(s: string, c: char)
    ensures Join(SplitOn(s, c), [c]) == s
    decreases |s|
  {
    var i := IndexOf(s, c);
    if i < |s| {
      var rest := SplitOn(s[i + 1..], c);
      var xs := [s[..i]] + rest;
      assert SplitOn(s, c) == xs;
      assert xs[1..] == rest;
      assert Join(xs, [c]) == s[..i] + [c] + Join(rest, [c]);
      JoinSplitOn(s[i + 1..], c);
      assert s == s[..i] + [c] + s[i + 1..];
    }
  }

  lemma IndexOfPrefix(x: string, rest: string, c: char)
    requires c !in x
    ensures IndexOf(x + [c] + rest, c) == |x|
  {
    var s := x + [c] + rest;
    assert s[|x|] == c;
    assert forall k :: 0 <= k < |x| ==> s[k] == x[k];
  }

  /** Splitting at the first separator. */
  lemma SplitOnCons(x: string, rest: string, c: char)
    requires c !in x
    ensures SplitOn(x + [c] + rest, c) == [x] + SplitOn(rest, c)
  {
    var s := x + [c] + rest;
    IndexOfPrefix(x, rest, c);
    assert s[..|x|] == x;
    assert s[|x| + 1..] == rest;
  }

  /** The parts of `pre + mid + [c]` read back by position. */
  lemma Enclosed(pre: string, mid: string, c: char)
    ensures var s := pre + mid + [c];
      |pre| < |s| && s[..|pre|] == pre && s[|s| - 1] == c && s[|pre|..|s| - 1] == mid
  {
    var s := pre + mid + [c];
    assert s[..|pre|] == pre;
    assert s[|pre|..|s| - 1] == mid;
  }

  /** Concatenating lists of strings regroups freely. */
  lemma Assoc(u: seq<string>, v: seq<string>, w: seq<string>)
    ensures u + (v + w) == (u + v) + w
  {
  }

  /** Splitting at a separator splits the two sides apart. */
  lemma {:induction false} SplitOnConcat(a: string, b: string, c: char)
    ensures SplitOn(a + [c] + b, c) == SplitOn(a, c) + SplitOn(b, c)
    decreases |a|
  {
    var i := IndexOf(a, c);
    if i == |a| {
      SplitOnCons(a, b, c);
    } else {
      var a1, a2 := a[..i], a[i + 1..];
      assert a == a1 + [c] + a2;
      assert a + [c] + b == a1 + [c] + (a2 + [c] + b);
      SplitOnCons(a1, a2 + [c] + b, c);
      SplitOnCons(a1, a2, c);
      SplitOnConcat(a2, b, c);
      Assoc([a1], SplitOn(a2, c), SplitOn(b, c));
    }
  }

  /** A prefix without the separator joins the first piece. */
  lemma SplitOnPrefix(p: string, s: string, c: char)
    requires c !in p
    ensures var ps := SplitOn(s, c);
      SplitOn(p + s, c) == [p + ps[0]] + ps[1..]
  {
    var i := IndexOf(s, c);
    if i == |s| {
      assert c !in p + s;
      assert IndexOf(p + s, c) == |p + s|;
    } else {
      assert s == s[..i] + [c] + s[i + 1..];
      assert p + s == (p + s[..i]) + [c] + s[i + 1..];
      SplitOnCons(p + s[..i], s[i + 1..], c);
      SplitOnCons(s[..i], s[i + 1..], c);
    }
  }

  /** Splitting a join restores the parts, when no part contains the separator. */
  lemma {:induction false} SplitOnJoin(xs: seq<string>, c: char)
    requires |xs| > 0
    requires forall k :: 0 <= k < |xs| ==> c !in xs[k]
    ensures SplitOn(Join(xs, [c]), c) == xs
  {
    if |xs| == 1 {
      assert IndexOf(xs[0], c) == |xs[0]|;
    } else {
      var rest := Join(xs[1..], [c]);
      assert Join(xs, [c]) == xs[0] + [c] + rest;
      SplitOnCons(xs[0], rest, c);
      SplitOnJoin(xs[1..], c);
      assert xs == [xs[0]] + xs[1..];
    }
  }

  /** Reads back a list written by `Join(xs, sep)`: cuts at every occurrence
      of the separator's first character and skips the separator. */
  function Unjoin(s: string, sep: string): (xs: seq<string>)
    requires sep != []
    ensures |xs| > 0
    decreases |s|
  {
    var i := IndexOf(s, sep[0]);
    if i == |s| then [s]
    else if i + |sep| <= |s| then [s[..i]] + Unjoin(s[i + |sep|..], sep)
    else [s[..i]] + Unjoin("", sep)
  }

  /** Cutting at the first separator. */
  lemma UnjoinCons(x: string, sep: string, rest: string)
    requires sep != [] && sep[0] !in x
    ensures Unjoin(x + sep + rest, sep) == [x] + Unjoin(rest, sep)
  {
    var s := x + sep + rest;
    assert s[|x|] == sep[0];
    assert forall k :: 0 <= k < |x| ==> s[k] == x[k];
    assert IndexOf(s, sep[0]) == |x|;
    assert s[..|x|] == x;
    assert s[|x| + |sep|..] == rest;
  }

  /** Cutting a join at its separators restores the parts, when no part
      contains the separator's first character. */
  lemma {:induction false} UnjoinJoin(xs: seq<string>, sep: string)
    requires |xs| > 0 && sep != []
    requires forall k :: 0 <= k < |xs| ==> sep[0] !in xs[k]
    ensures Unjoin(Join(xs, sep), sep) == xs
  {
    if |xs| == 1 {
      assert IndexOf(xs[0], sep[0]) == |xs[0]|;
    } else {
      var rest := Join(xs[1..], sep);
      assert Join(xs, sep) == xs[0] + sep + rest;
      UnjoinCons(xs[0], sep, rest);
      UnjoinJoin(xs[1..], sep);
      assert xs == [xs[0]] + xs[1..];
    }
  }

  /** `n` copies of `x`. */
  function Repeat(x: string, n: nat): (r: seq<string>)
    ensures |r| == n
    ensures forall k :: 0 <= k < n ==> r[k] == x
  {
    if n == 0 then [] else [x] + Repeat(x, n - 1)
  }

  lemma {:induction false} CountAllRepeat(x: string, n: nat, c: char)
    ensures CountAll(Repeat(x, n), c) == n * Count(x, c)
  {
    if n > 0 {
      CountAllRepeat(x, n - 1, c);
      assert Repeat(x, n)[1..] == Repeat(x, n - 1);
    }
  }

  /** Placeholder list `?<sep>?<sep>...` with `n` marks. */
  function Placeholders(n: nat, sep: string): (r: string)
    ensures '?' !in sep ==> Count(r, '?') == n
    ensures n == 0 ==> r == ""
  {
    PlaceholderMarks(n, sep);
    Join(Repeat("?", n), sep)
  }

  lemma PlaceholderMarks(n: nat, sep: string)
    ensures '?' !in sep ==> Count(Join(Repeat("?", n), sep), '?') == n
  {
    CountJoin(Repeat("?", n), sep, '?');
    CountAllRepeat("?", n, '?');
    CountAbsent(sep, '?');
  }

  predicate IsDigit(ch: char)
  {
    '0' <= ch <= '9'
  }

  function DigitChar(d: nat): (ch: char)
    requires d < 10
    ensures IsDigit(ch)
  {
    "0123456789"[d]
  }

  function DigitValue(ch: char): nat
    requires IsDigit(ch)
  {
    (ch as int - '0' as int) as nat
  }

  /** Decimal rendering of a non-negative integer, as `toString` prints it. */
  function NatToString(n: nat): (r: string)
    ensures |r| > 0
    ensures forall k :: 0 <= k < |r| ==> IsDigit(r[k])
  {
    if n < 10 then [DigitChar(n)]
    else NatToString(n / 10) + [DigitChar(n % 10)]
  }

  /** Reads back a string of decimal digits. */
  function ParseNat(s: string): nat
    requires forall k :: 0 <= k < |s| ==> IsDigit(s[k])
  {
    if s == [] then 0 else 10 * ParseNat(s[..|s| - 1]) + DigitValue(s[|s| - 1])
  }

  lemma {:induction false} ParseNatToString(n: nat)
    ensures ParseNat(NatToString(n)) == n
  {
    var s := NatToString(n);
    if n < 10 {
      assert s[..|s| - 1] == [];
      assert DigitValue(DigitChar(n)) == n;
    } else {
      assert s[..|s| - 1] == NatToString(n / 10);
      ParseNatToString(n / 10);
      assert DigitValue(DigitChar(n % 10)) == n % 10;
    }
  }

  /** Decimal rendering of a Kotlin `Int`, with a leading minus when negative. */
  function IntToString(i: int): (r: string)
    ensures |r| > 0
    ensures forall k :: 0 <= k < |r| ==> IsDigit(r[k]) || (k == 0 && r[k] == '-' && i < 0)
  {
    if i < 0 then "-" + NatToString(-i) else NatToString(i)
  }

  lemma IntToStringNoMark(i: int, c: char)
    requires !IsDigit(c) && c != '-'
    ensures c !in IntToString(i)
  {
  }
}
