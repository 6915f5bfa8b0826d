/** The state machine of `CsvLineSplitter` returns exactly the fields that
    `CsvFields.Fields` describes, for every line.

    The proof goes through `FieldsAt`, the same description phrased over
    positions of the line instead of its suffixes: the machine is shown to
    compute `FieldsAt`, and `FieldsAt` is shown to agree with `Fields`. */
module CsvSplitterCorrect {
  import opened Wrappers
  import opened Strings
  import opened CsvLineSplitter
  import opened CsvFields

  /** The tokens already collected in front of the fields still to come. */
  function AppendTo(ts: seq<string>, rest: Result<seq<string>, SplitError>): Result<seq<string>, SplitError>
  {
    match rest
    case Success(more) => Success(ts + more)
    case Failure(e) => Failure(e)
  }

  lemma AppendToCons(ts: seq<string>, token: string, rest: Result<seq<string>, SplitError>)
    ensures AppendTo(ts, Cons(token, rest)) == AppendTo(ts + [token], rest)
  {
    if rest.Success? {
      assert ts + ([token] + rest.value) == ts + [token] + rest.value;
    }
  }

  lemma AppendToNothing(ts: seq<string>)
    ensures AppendTo(ts, Success([])) == Success(ts)
  {
    assert ts + [] == ts;
  }

  /* ---------- the description over positions ---------- */

  /** The terminator of a quoted field scanned from `i` with `q` quotes seen:
      the first comma after an even number of quotes, or the content end. */
  function ScanQuoted(line: string, i: nat, q: nat): (j: nat)
    requires i <= LineEnd(line)
    ensures i <= j <= LineEnd(line)
    decreases LineEnd(line) - i
  {
    if i == LineEnd(line) then i
    else if line[i] == '"' then ScanQuoted(line, i + 1, q + 1)
    else if line[i] == ',' && q % 2 == 0 then i
    else ScanQuoted(line, i + 1, q)
  }

  /** The first comma at or after `i`, or the content end. */
  function ScanPlain(line: string, i: nat): (j: nat)
    requires i <= LineEnd(line)
    ensures i <= j <= LineEnd(line)
    decreases LineEnd(line) - i
  {
    if i == LineEnd(line) || line[i] == ',' then i else ScanPlain(line, i + 1)
  }

  /** The fields of the content from position `i`, which starts a field. */
  function FieldsAt(line: string, i: nat): Result<seq<string>, SplitError>
    requires i <= LineEnd(line)
    decreases LineEnd(line) - i, 1
  {
    if i == LineEnd(line) then Success([""])
    else if line[i] == ',' then Cons("", FieldsAt(line, i + 1))
    else if line[i] == '"' then
      var j := ScanQuoted(line, i + 1, 1);
      if j < i + 2 then Failure(StringIndexOutOfBounds)
      else Cons(CollapseQuotes(Chars(line, i + 1, j - 1)), RestAt(line, j))
    else
      var j := ScanPlain(line, i);
      Cons(Chars(line, i, j), RestAt(line, j))
  }

  /** The fields after a field that ended at `j`: those after the comma at
      `j`, or none at the content end. */
  function RestAt(line: string, j: nat): Result<seq<string>, SplitError>
    requires j <= LineEnd(line)
    decreases LineEnd(line) - j, 0
  {
    if j < LineEnd(line) then FieldsAt(line, j + 1) else Success([])
  }

  /* ---------- single steps of the machine ---------- */

  lemma StartEnds(line: string, m: Splitter)
    requires 0 <= m.currentChar == LineEnd(line)
    ensures Run(line, Start, m) == Success(m.tokens + [""])
  {
    assert IsLineEnd(line, m.currentChar);
  }

  lemma StartToQuoted(line: string, m: Splitter)
    requires 0 <= m.currentChar < LineEnd(line) && line[m.currentChar] == '"'
    ensures Run(line, Start, m) ==
      Run(line, QuotedToken(1), m.(startChar := m.currentChar, currentChar := m.currentChar + 1))
  {
    assert !IsLineEnd(line, m.currentChar);
  }

  /** A comma goes through `EmptyField`, which records an empty token. */
  lemma StartToEmpty(line: string, m: Splitter)
    requires 0 <= m.currentChar < LineEnd(line) && line[m.currentChar] == ','
    ensures Run(line, Start, m) ==
      Run(line, Start, m.(startChar := m.currentChar, currentChar := m.currentChar + 1, tokens := m.tokens + [""]))
  {
    assert !IsLineEnd(line, m.currentChar);
    var m1 := m.(startChar := m.currentChar, currentChar := m.currentChar + 1);
    assert Run(line, Start, m) == Run(line, EmptyField, m1);
  }

  lemma StartToNonQuoted(line: string, m: Splitter)
    requires 0 <= m.currentChar < LineEnd(line)
    requires line[m.currentChar] != '"' && line[m.currentChar] != ','
    ensures Run(line, Start, m) ==
      Run(line, NonQuotedToken, m.(startChar := m.currentChar, currentChar := m.currentChar + 1))
  {
    assert !IsLineEnd(line, m.currentChar);
  }

  /** The quote count after one more character of a quoted field. */
  function NextQuotes(q: nat, c: char): nat
  {
    if c == '"' then q + 1 else q
  }

  lemma QuotedContinues(line: string, q: nat, m: Splitter)
    requires 0 <= m.currentChar < LineEnd(line)
    requires !(line[m.currentChar] == ',' && q % 2 == 0)
    ensures Run(line, QuotedToken(q), m) ==
      Run(line, QuotedToken(NextQuotes(q, line[m.currentChar])), m.(currentChar := m.currentChar + 1))
  {
    assert !IsLineEnd(line, m.currentChar);
  }

  lemma QuotedCloses(line: string, q: nat, m: Splitter)
    requires 0 <= m.startChar && m.startChar + 2 <= m.currentChar < LineEnd(line)
    requires line[m.currentChar] == ',' && q % 2 == 0
    ensures Run(line, QuotedToken(q), m) ==
      Run(line, Start, m.(currentChar := m.currentChar + 1,
                          tokens := m.tokens + [CollapseQuotes(Chars(line, m.startChar + 1, m.currentChar - 1))]))
  {
    assert !IsLineEnd(line, m.currentChar);
  }

  lemma QuotedEnds(line: string, q: nat, m: Splitter)
    requires 0 <= m.startChar && m.startChar + 2 <= m.currentChar == LineEnd(line)
    ensures Run(line, QuotedToken(q), m) ==
      Success(m.tokens + [CollapseQuotes(Chars(line, m.startChar + 1, m.currentChar - 1))])
  {
    assert IsLineEnd(line, m.currentChar);
  }

  /** A quoted field closed right after its opening quote has an inverted
      substring range. */
  lemma QuotedThrows(line: string, q: nat, m: Splitter)
    requires 0 <= m.startChar && m.currentChar == m.startChar + 1 <= LineEnd(line)
    requires m.currentChar == LineEnd(line) || (line[m.currentChar] == ',' && q % 2 == 0)
    ensures Run(line, QuotedToken(q), m) == Failure(StringIndexOutOfBounds)
  {
    if m.currentChar == LineEnd(line) {
      assert IsLineEnd(line, m.currentChar);
    } else {
      assert !IsLineEnd(line, m.currentChar);
    }
  }

  lemma NonQuotedContinues(line: string, m: Splitter)
    requires 0 <= m.currentChar < LineEnd(line) && line[m.currentChar] != ','
    ensures Run(line, NonQuotedToken, m) == Run(line, NonQuotedToken, m.(currentChar := m.currentChar + 1))
  {
    assert !IsLineEnd(line, m.currentChar);
  }

  lemma NonQuotedCloses(line: string, m: Splitter)
    requires 0 <= m.startChar <= m.currentChar < LineEnd(line) && line[m.currentChar] == ','
    ensures Run(line, NonQuotedToken, m) ==
      Run(line, Start, m.(currentChar := m.currentChar + 1, tokens := m.tokens + [Chars(line, m.startChar, m.currentChar)]))
  {
    assert !IsLineEnd(line, m.currentChar);
  }

  lemma NonQuotedEnds(line: string, m: Splitter)
    requires 0 <= m.startChar <= m.currentChar == LineEnd(line)
    ensures Run(line, NonQuotedToken, m) == Success(m.tokens + [Chars(line, m.startChar, m.currentChar)])
  {
    assert IsLineEnd(line, m.currentChar);
  }

  /* ---------- the machine computes FieldsAt ---------- */

  /** From `Start` the machine appends the fields from the cursor on. */
  lemma {:induction false} StartRun(line: string, m: Splitter)
    requires 0 <= m.currentChar <= LineEnd(line)
    ensures Run(line, Start, m) == AppendTo(m.tokens, FieldsAt(line, m.currentChar))
    decreases LineEnd(line) - m.currentChar, 1
  {
    var cur := m.currentChar;
    if cur == LineEnd(line) {
      StartEnds(line, m);
    } else if line[cur] == '"' {
      StartQuote(line, m);
    } else if line[cur] == ',' {
      StartComma(line, m);
    } else {
      StartOther(line, m);
    }
  }

  lemma {:induction false} StartQuote(line: string, m: Splitter)
    requires 0 <= m.currentChar < LineEnd(line) && line[m.currentChar] == '"'
    ensures Run(line, Start, m) == AppendTo(m.tokens, FieldsAt(line, m.currentChar))
    decreases LineEnd(line) - m.currentChar, 0
  {
    var cur := m.currentChar;
    var j := ScanQuoted(line, cur + 1, 1);
    var m' := m.(startChar := cur, currentChar := cur + 1);
    StartToQuoted(line, m);
    QuotedRun(line, 1, m');
    var r := Run(line, QuotedToken(1), m');
    assert QuotedResult(line, cur, m.tokens, j, r);
    FieldsAtQuoted(line, cur);
    var token := if j < cur + 2 then "" else CollapseQuotes(Chars(line, cur + 1, j - 1));
    FieldAfter(r, FieldsAt(line, cur), m.tokens, j < cur + 2, token, RestAt(line, j));
  }

  /** The machine's result and the fields from the same position agree,
      whether the field fails or gives `token` before `rest`. */
  lemma FieldAfter(r: Result<seq<string>, SplitError>, fields: Result<seq<string>, SplitError>, tokens: seq<string>,
                   fails: bool, token: string, rest: Result<seq<string>, SplitError>)
    requires r == if fails then Failure(StringIndexOutOfBounds) else AppendTo(tokens + [token], rest)
    requires fields == if fails then Failure(StringIndexOutOfBounds) else Cons(token, rest)
    ensures r == AppendTo(tokens, fields)
  {
    if !fails {
      AppendToCons(tokens, token, rest);
    }
  }

  lemma {:induction false} StartComma(line: string, m: Splitter)
    requires 0 <= m.currentChar < LineEnd(line) && line[m.currentChar] == ','
    ensures Run(line, Start, m) == AppendTo(m.tokens, FieldsAt(line, m.currentChar))
    decreases LineEnd(line) - m.currentChar, 0
  {
    var cur := m.currentChar;
    StartToEmpty(line, m);
    StartRun(line, m.(startChar := cur, currentChar := cur + 1, tokens := m.tokens + [""]));
    AppendToCons(m.tokens, "", FieldsAt(line, cur + 1));
  }

  lemma {:induction false} StartOther(line: string, m: Splitter)
    requires 0 <= m.currentChar < LineEnd(line)
    requires line[m.currentChar] != ',' && line[m.currentChar] != '"'
    ensures Run(line, Start, m) == AppendTo(m.tokens, FieldsAt(line, m.currentChar))
    decreases LineEnd(line) - m.currentChar, 0
  {
    var cur := m.currentChar;
    var j := PlainFieldAt(line, cur);
    StartToNonQuoted(line, m);
    NonQuotedRun(line, m.(startChar := cur, currentChar := cur + 1), j);
    AppendToCons(m.tokens, Chars(line, cur, j), RestAt(line, j));
  }

  /** Inside a quoted field that began at `startChar`, with `q` quotes seen:
      the field ends at the next terminator, or fails when that leaves fewer
      than two characters. */
  lemma {:induction false} QuotedRun(line: string, q: nat, m: Splitter)
    requires 0 <= m.startChar < m.currentChar <= LineEnd(line)
    ensures QuotedOutcome(line, q, m)
    decreases LineEnd(line) - m.currentChar, 2
  {
    var cur := m.currentChar;
    if cur == LineEnd(line) {
      QuotedAtEnd(line, q, m);
    } else if line[cur] == ',' && q % 2 == 0 {
      QuotedAtComma(line, q, m);
    } else {
      QuotedInside(line, q, m);
    }
  }

  /** What the machine returns from a quoted field: its token and the fields
      after its terminator, or the failure of an inverted range. */
  predicate QuotedOutcome(line: string, q: nat, m: Splitter)
    requires 0 <= m.startChar < m.currentChar <= LineEnd(line)
  {
    QuotedResult(line, m.startChar, m.tokens, ScanQuoted(line, m.currentChar, q), Run(line, QuotedToken(q), m))
  }

  /** `r` is what a quoted field opened at `a` and ending at `j` gives. */
  predicate QuotedResult(line: string, a: nat, tokens: seq<string>, j: nat, r: Result<seq<string>, SplitError>)
    requires a < j <= LineEnd(line)
  {
    r == if j < a + 2 then Failure(StringIndexOutOfBounds)
         else AppendTo(tokens + [CollapseQuotes(Chars(line, a + 1, j - 1))], RestAt(line, j))
  }

  lemma QuotedAtEnd(line: string, q: nat, m: Splitter)
    requires 0 <= m.startChar < m.currentChar == LineEnd(line)
    ensures QuotedOutcome(line, q, m)
  {
    var cur := m.currentChar;
    var a := m.startChar;
    assert ScanQuoted(line, cur, q) == cur;
    if cur < a + 2 {
      QuotedThrows(line, q, m);
    } else {
      QuotedEnds(line, q, m);
      AppendToNothing(m.tokens + [CollapseQuotes(Chars(line, a + 1, cur - 1))]);
    }
  }

  lemma {:induction false} QuotedAtComma(line: string, q: nat, m: Splitter)
    requires 0 <= m.startChar < m.currentChar < LineEnd(line)
    requires line[m.currentChar] == ',' && q % 2 == 0
    ensures QuotedOutcome(line, q, m)
    decreases LineEnd(line) - m.currentChar, 1
  {
    var cur := m.currentChar;
    var a := m.startChar;
    assert ScanQuoted(line, cur, q) == cur;
    if cur < a + 2 {
      QuotedThrows(line, q, m);
      assert QuotedResult(line, a, m.tokens, cur, Failure(StringIndexOutOfBounds));
    } else {
      QuotedCommaCloses(line, q, m);
    }
  }

  /** A closing comma after at least two characters: the token, then the
      fields after the comma. */
  lemma {:induction false} QuotedCommaCloses(line: string, q: nat, m: Splitter)
    requires 0 <= m.startChar && m.startChar + 2 <= m.currentChar < LineEnd(line)
    requires line[m.currentChar] == ',' && q % 2 == 0
    ensures QuotedResult(line, m.startChar, m.tokens, m.currentChar, Run(line, QuotedToken(q), m))
    decreases LineEnd(line) - m.currentChar, 0
  {
    var cur := m.currentChar;
    var token := CollapseQuotes(Chars(line, m.startChar + 1, cur - 1));
    var m' := m.(currentChar := cur + 1, tokens := m.tokens + [token]);
    QuotedCloses(line, q, m);
    StartRun(line, m');
    assert RestAt(line, cur) == FieldsAt(line, cur + 1);
  }

  lemma {:induction false} QuotedInside(line: string, q: nat, m: Splitter)
    requires 0 <= m.startChar < m.currentChar < LineEnd(line)
    requires !(line[m.currentChar] == ',' && q % 2 == 0)
    ensures QuotedOutcome(line, q, m)
    decreases LineEnd(line) - m.currentChar, 0
  {
    var cur := m.currentChar;
    var q', m' := NextQuotes(q, line[cur]), m.(currentChar := cur + 1);
    ScanQuotedStep(line, cur, q);
    QuotedContinues(line, q, m);
    QuotedRun(line, q', m');
    assert QuotedResult(line, m.startChar, m.tokens, ScanQuoted(line, cur + 1, q'), Run(line, QuotedToken(q'), m'));
  }

  /** Inside a quoted field the scan moves past any character but a
      terminating comma. */
  lemma ScanQuotedStep(line: string, cur: nat, q: nat)
    requires cur < LineEnd(line) && !(line[cur] == ',' && q % 2 == 0)
    ensures ScanQuoted(line, cur, q) == ScanQuoted(line, cur + 1, NextQuotes(q, line[cur]))
  {
  }

  /** `j` is where an unquoted field read from `i` stops: the first comma
      at or after `i`, or the content end. */
  predicate PlainStop(line: string, i: nat, j: nat)
  {
    i <= j <= LineEnd(line) && (j < LineEnd(line) ==> line[j] == ',')
    && forall k :: i <= k < j ==> line[k] != ','
  }

  /** Inside an unquoted field that began at `startChar`: the field runs to
      the next comma or the content end. */
  lemma {:induction false} NonQuotedRun(line: string, m: Splitter, j: nat)
    requires 0 <= m.startChar <= m.currentChar && PlainStop(line, m.currentChar, j)
    ensures Run(line, NonQuotedToken, m) == AppendTo(m.tokens + [Chars(line, m.startChar, j)], RestAt(line, j))
    decreases LineEnd(line) - m.currentChar, 0
  {
    var cur := m.currentChar;
    if cur == LineEnd(line) {
      NonQuotedEnds(line, m);
      AppendToNothing(m.tokens + [Chars(line, m.startChar, cur)]);
    } else if line[cur] == ',' {
      assert j == cur;
      NonQuotedCloses(line, m);
      StartRun(line, m.(currentChar := cur + 1, tokens := m.tokens + [Chars(line, m.startChar, cur)]));
    } else {
      NonQuotedContinues(line, m);
      NonQuotedRun(line, m.(currentChar := cur + 1), j);
    }
  }

  /** `ScanPlain` stops where an unquoted field stops. */
  lemma {:induction false} ScanPlainStops(line: string, i: nat)
    requires i <= LineEnd(line)
    ensures PlainStop(line, i, ScanPlain(line, i))
    decreases LineEnd(line) - i
  {
    if i < LineEnd(line) && line[i] != ',' {
      ScanPlainStops(line, i + 1);
    }
  }

  /* ---------- FieldsAt agrees with Fields ---------- */

  /** `ScanPlain` finds the comma `IndexOf` finds in the suffix. */
  lemma {:induction false} ScanPlainIndexOf(line: string, i: nat)
    requires i <= LineEnd(line)
    ensures ScanPlain(line, i) == i + IndexOf(line[i..LineEnd(line)], ',')
    decreases LineEnd(line) - i
  {
    var s := line[i..LineEnd(line)];
    if i < LineEnd(line) && line[i] != ',' {
      ScanPlainIndexOf(line, i + 1);
      assert s[0] == line[i];
      assert s[1..] == line[i + 1..LineEnd(line)];
    }
  }

  /** `ScanQuoted` finds the terminator `QuotedEnd` finds in the suffix that
      starts at the field's opening quote. */
  lemma {:induction false} ScanQuotedEnd(line: string, a: nat, k: nat, q: nat)
    requires a + k <= LineEnd(line)
    ensures ScanQuoted(line, a + k, q) == a + QuotedEnd(line[a..LineEnd(line)], k, q)
    decreases LineEnd(line) - (a + k)
  {
    if a + k < LineEnd(line) {
      assert line[a..LineEnd(line)][k] == line[a + k];
      if !(line[a + k] == ',' && q % 2 == 0) {
        ScanQuotedEnd(line, a, k + 1, NextQuotes(q, line[a + k]));
      }
    }
  }

  lemma SliceOfSlice(line: string, i: nat, L: nat, a: nat, b: nat)
    requires i <= L <= |line| && a <= b <= L - i
    ensures line[i..L][a..b] == line[i + a..i + b]
  {
    var u, v := line[i..L][a..b], line[i + a..i + b];
    assert forall k :: 0 <= k < |u| ==> u[k] == v[k];
  }

  /** The position-based description is the suffix-based one. */
  lemma {:induction false} FieldsAtSuffix(line: string, i: nat)
    requires i <= LineEnd(line)
    ensures FieldsAt(line, i) == Fields(line[i..LineEnd(line)])
    decreases LineEnd(line) - i, 5
  {
    if i == LineEnd(line) {
      assert line[i..LineEnd(line)] == [];
    } else if line[i] == ',' {
      FieldsAtComma(line, i);
    } else if line[i] == '"' {
      FieldsAtQuote(line, i);
    } else {
      FieldsAtPlain(line, i);
    }
  }

  lemma {:induction false} FieldsAtComma(line: string, i: nat)
    requires i < LineEnd(line) && line[i] == ','
    ensures FieldsAt(line, i) == Fields(line[i..LineEnd(line)])
    decreases LineEnd(line) - i, 2
  {
    var s := line[i..LineEnd(line)];
    assert s[0] == ',';
    assert s[1..] == line[i + 1..LineEnd(line)];
    FieldsAtSuffix(line, i + 1);
  }

  /** One unfolding of `Fields` on a field opened by a quote. */
  lemma FieldsQuoted(t: string)
    requires |t| > 0 && t[0] == '"'
    ensures
      var k := QuotedEnd(t, 1, 1);
      Fields(t) ==
        if k < 2 then Failure(StringIndexOutOfBounds)
        else if k < |t| then Cons(CollapseQuotes(t[1..k - 1]), Fields(t[k + 1..]))
        else Success([CollapseQuotes(t[1..k - 1])])
  {
  }

  /** One unfolding of `FieldsAt` on a field opened by a quote. */
  lemma FieldsAtQuoted(line: string, i: nat)
    requires i < LineEnd(line) && line[i] == '"'
    ensures
      var j := ScanQuoted(line, i + 1, 1);
      FieldsAt(line, i) ==
        if j < i + 2 then Failure(StringIndexOutOfBounds)
        else Cons(CollapseQuotes(Chars(line, i + 1, j - 1)), RestAt(line, j))
  {
  }

  lemma {:induction false} FieldsAtQuote(line: string, i: nat)
    requires i < LineEnd(line) && line[i] == '"'
    ensures FieldsAt(line, i) == Fields(line[i..LineEnd(line)])
    decreases LineEnd(line) - i, 4
  {
    var k := QuotedEnd(line[i..LineEnd(line)], 1, 1);
    if k < 2 {
      QuotedTooShort(line, i);
    } else {
      QuotedFieldAgrees(line, i, k);
    }
  }

  /** A quote with no closing character after it fails both ways. */
  lemma QuotedTooShort(line: string, i: nat)
    requires i < LineEnd(line) && line[i] == '"'
    requires QuotedEnd(line[i..LineEnd(line)], 1, 1) < 2
    ensures FieldsAt(line, i) == Fields(line[i..LineEnd(line)])
  {
    var t := line[i..LineEnd(line)];
    assert t[0] == '"';
    FieldsQuoted(t);
    FieldsAtQuoted(line, i);
    ScanQuotedEnd(line, i, 1, 1);
  }

  lemma {:induction false} QuotedFieldAgrees(line: string, i: nat, k: nat)
    requires i < LineEnd(line) && line[i] == '"'
    requires k == QuotedEnd(line[i..LineEnd(line)], 1, 1) && 2 <= k
    ensures FieldsAt(line, i) == Fields(line[i..LineEnd(line)])
    decreases LineEnd(line) - i, 3
  {
    var t := line[i..LineEnd(line)];
    QuotedFieldAt(line, i, k);
    QuotedFieldBridge(line, i, k);
    assert t[0] == '"';
    FieldsQuoted(t);
  }

  /** `FieldsAt` on a quoted field of `k` characters, terminator excluded. */
  lemma QuotedFieldAt(line: string, i: nat, k: nat)
    requires i < LineEnd(line) && line[i] == '"'
    requires k == QuotedEnd(line[i..LineEnd(line)], 1, 1) && 2 <= k
    ensures i + k <= LineEnd(line)
    ensures FieldsAt(line, i) == Cons(CollapseQuotes(Chars(line, i + 1, i + k - 1)), RestAt(line, i + k))
  {
    ScanQuotedEnd(line, i, 1, 1);
    FieldsAtQuoted(line, i);
  }

  /** A quoted field of `k` characters, terminator excluded: the same token,
      and the same fields after it. */
  lemma {:induction false} QuotedFieldBridge(line: string, i: nat, k: nat)
    requires 2 <= k && i + k <= LineEnd(line)
    ensures
      var t := line[i..LineEnd(line)];
      Cons(CollapseQuotes(Chars(line, i + 1, i + k - 1)), RestAt(line, i + k)) ==
        if k < |t| then Cons(CollapseQuotes(t[1..k - 1]), Fields(t[k + 1..]))
        else Success([CollapseQuotes(t[1..k - 1])])
    decreases LineEnd(line) - i, 2
  {
    QuotedTokenSame(line, i, k);
    if i + k < LineEnd(line) {
      QuotedFieldMore(line, i, k);
    } else {
      var token := CollapseQuotes(Chars(line, i + 1, i + k - 1));
      assert RestAt(line, i + k) == Success([]);
      assert [token] + [] == [token];
    }
  }

  /** The token's characters are the same read from the line or from the
      suffix. */
  lemma QuotedTokenSame(line: string, i: nat, k: nat)
    requires 2 <= k && i + k <= LineEnd(line)
    ensures Chars(line, i + 1, i + k - 1) == line[i..LineEnd(line)][1..k - 1]
  {
    CharsSlice(line, i + 1, i + k - 1);
    SliceOfSlice(line, i, LineEnd(line), 1, k - 1);
  }

  lemma {:induction false} QuotedFieldMore(line: string, i: nat, k: nat)
    requires 2 <= k && i + k < LineEnd(line)
    ensures RestAt(line, i + k) == Fields(line[i..LineEnd(line)][k + 1..])
    decreases LineEnd(line) - i, 1
  {
    RestAtSuffix(line, i, i + k);
  }

  lemma {:induction false} FieldsAtPlain(line: string, i: nat)
    requires PlainAt(line, i)
    ensures FieldsAt(line, i) == Fields(line[i..LineEnd(line)])
    decreases LineEnd(line) - i, 3
  {
    var j := PlainFieldAt(line, i);
    PlainFieldSuffix(line, i, j);
  }

  /** Position `i` opens an unquoted field. */
  predicate PlainAt(line: string, i: nat)
  {
    i < LineEnd(line) && line[i] != ',' && line[i] != '"'
  }

  /** `FieldsAt` on an unquoted field: its characters up to the first comma
      `j` of the suffix, or its end. */
  lemma PlainFieldAt(line: string, i: nat) returns (j: nat)
    requires PlainAt(line, i)
    ensures i < j <= LineEnd(line) && j - i == IndexOf(line[i..LineEnd(line)], ',') && PlainStop(line, i + 1, j)
    ensures FieldsAt(line, i) == Cons(Chars(line, i, j), RestAt(line, j))
  {
    j := ScanPlain(line, i);
    ScanPlainIndexOf(line, i);
    ScanPlainStops(line, i);
  }

  /** `Fields` on the suffix that starts with an unquoted field. */
  lemma {:induction false} PlainFieldSuffix(line: string, i: nat, j: nat)
    requires PlainAt(line, i) && i < j <= LineEnd(line) && j - i == IndexOf(line[i..LineEnd(line)], ',')
    ensures Fields(line[i..LineEnd(line)]) == Cons(Chars(line, i, j), RestAt(line, j))
    decreases LineEnd(line) - i, 2
  {
    if j < LineEnd(line) {
      PlainFieldMore(line, i, j);
      RestAtFrom(line, j);
    } else {
      PlainFieldLast(line, i);
    }
  }

  /** The fields after the comma at `j` are those of the suffix after it. */
  lemma {:induction false} RestAtFrom(line: string, j: nat)
    requires j < LineEnd(line)
    ensures RestAt(line, j) == Fields(line[j + 1..LineEnd(line)])
    decreases LineEnd(line) - (j + 1), 6
  {
    FieldsAtSuffix(line, j + 1);
  }

  /** An unquoted field that a comma closes, read from the suffix. */
  lemma PlainFieldMore(line: string, i: nat, j: nat)
    requires PlainAt(line, i) && i < j < LineEnd(line) && j - i == IndexOf(line[i..LineEnd(line)], ',')
    ensures Fields(line[i..LineEnd(line)]) == Cons(Chars(line, i, j), Fields(line[j + 1..LineEnd(line)]))
  {
    var L := LineEnd(line);
    var t := line[i..L];
    assert t[0] == line[i];
    PlainFieldOf(t, j - i);
    PlainTokenSame(line, i, j);
    SliceOfSlice(line, i, L, j - i + 1, L - i);
    assert t[j - i + 1..] == t[j - i + 1..L - i];
  }

  /** One unfolding of `Fields` on an unquoted field a comma closes. */
  lemma PlainFieldOf(t: string, k: nat)
    requires t != [] && t[0] != ',' && t[0] != '"' && k == IndexOf(t, ',') < |t|
    ensures Fields(t) == Cons(t[..k], Fields(t[k + 1..]))
  {
  }

  /** An unquoted field that runs to the content end, read from the suffix. */
  lemma PlainFieldLast(line: string, i: nat)
    requires PlainAt(line, i) && IndexOf(line[i..LineEnd(line)], ',') == LineEnd(line) - i
    ensures Fields(line[i..LineEnd(line)]) == Cons(Chars(line, i, LineEnd(line)), RestAt(line, LineEnd(line)))
  {
    var L := LineEnd(line);
    var t := line[i..L];
    assert t[0] == line[i];
    PlainTokenSame(line, i, L);
    assert t[..L - i] == t;
    assert RestAt(line, L) == Success([]);
    assert [t] + [] == [t];
  }

  lemma PlainTokenSame(line: string, i: nat, j: nat)
    requires i <= j <= LineEnd(line)
    ensures Chars(line, i, j) == line[i..LineEnd(line)][..j - i]
  {
    CharsSlice(line, i, j);
    SliceOfSlice(line, i, LineEnd(line), 0, j - i);
    assert line[i..LineEnd(line)][..j - i] == line[i..LineEnd(line)][0..j - i];
  }

  /** The fields after a field that began at `i` and ended at `j`. */
  lemma {:induction false} RestAtSuffix(line: string, i: nat, j: nat)
    requires i < j <= LineEnd(line)
    ensures j < LineEnd(line) ==> RestAt(line, j) == Fields(line[i..LineEnd(line)][j - i + 1..])
    ensures j == LineEnd(line) ==> RestAt(line, j) == Success([])
    decreases LineEnd(line) - i, 0
  {
    if j < LineEnd(line) {
      FieldsAtSuffix(line, j + 1);
      assert line[i..LineEnd(line)][j - i + 1..] == line[j + 1..LineEnd(line)];
    }
  }

  /* ---------- the result ---------- */

  /** `split` returns the fields of the line's content, and nothing for an
      empty line, whatever the splitter object held before the call. */
  lemma SplitMatchesFields(sp: Splitter, line: string)
    ensures Split(sp, line) == if |line| == 0 then Success([]) else Fields(Content(line))
  {
    if |line| > 0 {
      StartRun(line, Reset(sp));
      FieldsAtSuffix(line, 0);
      var f := Fields(Content(line));
      assert line[0..LineEnd(line)] == Content(line);
      if f.Success? {
        assert [] + f.value == f.value;
      }
    }
  }
}
