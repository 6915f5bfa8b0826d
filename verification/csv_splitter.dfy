/** The CSV line splitter: a four-state machine that walks one line a
    character at a time and collects the field strings it finds.

    The Java class keeps its token list, cursor (`currentChar`) and field
    start (`startChar`) in instance fields; here they are the `Splitter`
    record, and one call of `State.next` is the function `Next`. */
module CsvLineSplitter {
  import opened Wrappers

  /** `String.substring` throws `StringIndexOutOfBoundsException` on a bad range. */
  datatype SplitError = StringIndexOutOfBounds

  /** The machine's states; `QuotedToken` keeps the number of quotes seen in its field. */
  datatype State = Start | QuotedToken(quotes: nat) | NonQuotedToken | EmptyField

  /** The splitter's per-call fields. */
  datatype Splitter = Splitter(tokens: seq<string>, currentChar: int, startChar: int)

  /** What one step produced: the next state, or `null` (the machine stops). */
  datatype Step = Stop(final: Splitter) | Go(next: State, m: Splitter)

  /** The cursor is at or past the end of the line, or on a CR or LF. */
  predicate IsLineEnd(line: string, at: int)
    requires 0 <= at
  {
    at >= |line| || line[at] == '\r' || line[at] == '\n'
  }

  /** The characters of `s` from `begin` up to, not including, `end`. */
  function Chars(s: string, begin: nat, end: nat): (r: string)
    requires begin <= end <= |s|
    ensures |r| == end - begin
    decreases end - begin
  {
    if begin == end then "" else [s[begin]] + Chars(s, begin + 1, end)
  }

  lemma {:induction false} CharsSlice(s: string, begin: nat, end: nat)
    requires begin <= end <= |s|
    ensures Chars(s, begin, end) == s[begin..end]
    decreases end - begin
  {
    if begin < end {
      CharsSlice(s, begin + 1, end);
      assert s[begin..end] == [s[begin]] + s[begin + 1..end];
    }
  }

  /** Java's `s.substring(begin, end)`. */
  function Substring(s: string, begin: int, end: int): Result<string, SplitError>
  {
    if 0 <= begin <= end <= |s| then Success(Chars(s, begin, end)) else Failure(StringIndexOutOfBounds)
  }

  /** Java's `s.replaceAll("\"\"", "\"")`: scanning left to right, each
      non-overlapping pair of quotes becomes one quote. */
  function CollapseQuotes(s: string): (r: string)
    ensures |r| <= |s|
  {
    CollapseFrom(s, 0)
  }

  /** `CollapseQuotes` of the characters of `s` from `i` on. */
  function CollapseFrom(s: string, i: nat): (r: string)
    requires i <= |s|
    ensures |r| <= |s| - i
    decreases |s| - i
  {
    if i == |s| then ""
    else if i + 1 < |s| && s[i] == '"' && s[i + 1] == '"' then "\"" + CollapseFrom(s, i + 2)
    else [s[i]] + CollapseFrom(s, i + 1)
  }

  /** Each quote written twice: the escaping that `CollapseQuotes` undoes. */
  function DoubleQuotes(t: string): string
  {
    if t == [] then ""
    else if t[0] == '"' then "\"\"" + DoubleQuotes(t[1..])
    else [t[0]] + DoubleQuotes(t[1..])
  }

  lemma CollapseDoubleQuotes(t: string)
    ensures CollapseQuotes(DoubleQuotes(t)) == t
  {
    CollapseAfter([], t);
    assert [] + DoubleQuotes(t) == DoubleQuotes(t);
  }

  /** Collapsing after an arbitrary prefix `u` undoes the doubling of `t`. */
  lemma {:induction false} CollapseAfter(u: string, t: string)
    ensures CollapseFrom(u + DoubleQuotes(t), |u|) == t
    decreases |t|
  {
    var d := DoubleQuotes(t);
    if t == [] {
      assert u + d == u;
    } else if t[0] == '"' {
      var u' := u + "\"\"";
      assert u + d == u' + DoubleQuotes(t[1..]);
      CollapseAfter(u', t[1..]);
      assert t == "\"" + t[1..];
    } else {
      var u' := u + [t[0]];
      assert u + d == u' + DoubleQuotes(t[1..]);
      CollapseAfter(u', t[1..]);
      assert t == [t[0]] + t[1..];
    }
  }

  /** The token text of a quoted field ending just before the cursor. */
  function ExtractQuoted(line: string, m: Splitter): Result<string, SplitError>
  {
    var raw :- Substring(line, m.startChar + 1, m.currentChar - 1);
    Success(CollapseQuotes(raw))
  }

  /** The token text of an unquoted field ending just before the cursor. */
  function ExtractNonQuoted(line: string, m: Splitter): Result<string, SplitError>
  {
    Substring(line, m.startChar, m.currentChar)
  }

  /** Second component of the termination measure: `EmptyField` hands over
      to `Start` without moving the cursor. */
  function Rank(state: State): nat
  {
    if state.EmptyField? then 1 else 0
  }

  /** One call of `state.next(line)`: `process`, then the cursor advance of
      `State.next`, except that a token-parsing state at the line end only
      appends its token and stops. */
  function Next(line: string, state: State, m: Splitter): (r: Result<Step, SplitError>)
    requires 0 <= m.currentChar <= |line|
    ensures r.Success? && r.value.Go? ==>
      var m' := r.value.m;
      && 0 <= m'.currentChar <= |line|
      && (m'.currentChar > m.currentChar
          || (m'.currentChar == m.currentChar && Rank(r.value.next) < Rank(state)))
  {
    var cur := m.currentChar;
    match state
    case Start =>
      if IsLineEnd(line, cur) then
        Success(Stop(m.(tokens := m.tokens + [""], currentChar := cur + 1)))
      else
        var c := line[cur];
        var m' := m.(startChar := cur, currentChar := cur + 1);
        if c == '"' then Success(Go(QuotedToken(1), m'))
        else if c == ',' then Success(Go(EmptyField, m'))
        else Success(Go(NonQuotedToken, m'))
    case EmptyField =>
      // `process` steps the cursor back before `next` advances it again
      Success(Go(Start, m.(tokens := m.tokens + [""], currentChar := cur - 1 + 1)))
    case QuotedToken(quotes) =>
      if IsLineEnd(line, cur) then
        var token :- ExtractQuoted(line, m);
        Success(Stop(m.(tokens := m.tokens + [token])))
      else
        var c := line[cur];
        if c == '"' then
          Success(Go(QuotedToken(quotes + 1), m.(currentChar := cur + 1)))
        else if c == ',' && quotes % 2 == 0 then
          var token :- ExtractQuoted(line, m);
          Success(Go(Start, m.(tokens := m.tokens + [token], currentChar := cur + 1)))
        else
          Success(Go(QuotedToken(quotes), m.(currentChar := cur + 1)))
    case NonQuotedToken =>
      if IsLineEnd(line, cur) then
        var token :- ExtractNonQuoted(line, m);
        Success(Stop(m.(tokens := m.tokens + [token])))
      else if line[cur] == ',' then
        var token :- ExtractNonQuoted(line, m);
        Success(Go(Start, m.(tokens := m.tokens + [token], currentChar := cur + 1)))
      else
        Success(Go(NonQuotedToken, m.(currentChar := cur + 1)))
  }

  /** The `while (state != null)` loop of `split`, from `state` and `m` on;
      yields the token list the machine holds when it stops. */
  function Run(line: string, state: State, m: Splitter): Result<seq<string>, SplitError>
    requires 0 <= m.currentChar <= |line|
    decreases |line| - m.currentChar, Rank(state)
  {
    var step :- Next(line, state, m);
    match step
    case Stop(final) => Success(final.tokens)
    case Go(s', m') => Run(line, s', m')
  }

  /** `reset`: a fresh token list and cursor; `startChar` keeps its old value. */
  function Reset(sp: Splitter): Splitter
  {
    Splitter([], 0, sp.startChar)
  }

  /** `split(line)` on a splitter object in any prior state. */
  function Split(sp: Splitter, line: string): Result<seq<string>, SplitError>
  {
    var m := Reset(sp);
    if |line| > 0 then Run(line, Start, m) else Success(m.tokens)
  }

  /** `split(line)` on a newly created splitter. */
  function SplitLine(line: string): Result<seq<string>, SplitError>
  {
    Split(Splitter([], 0, 0), line)
  }
}
