/** A field-by-field description of what the CSV line splitter returns,
    written independently of its character-level state machine.

    The splitter never looks past the first CR or LF of a line, so the
    description works on the line's content: the text before that character. */
module CsvFields {
  import opened Wrappers
  import opened Strings
  import opened CsvLineSplitter

  predicate IsBreak(ch: char)
  {
    ch == '\r' || ch == '\n'
  }

  /** Index of the first CR or LF of `line`, or its length. */
  function LineEnd(line: string): (k: nat)
    ensures k <= |line|
    ensures k < |line| ==> IsBreak(line[k])
    ensures forall i :: 0 <= i < k ==> !IsBreak(line[i])
  {
    BreakFrom(line, 0)
  }

  /** Index of the first CR or LF of `line` at or after `i`, or its length. */
  function BreakFrom(line: string, i: nat): (k: nat)
    requires i <= |line|
    ensures i <= k <= |line|
    ensures k < |line| ==> IsBreak(line[k])
    ensures forall n :: i <= n < k ==> !IsBreak(line[n])
    decreases |line| - i
  {
    if i == |line| || IsBreak(line[i]) then i else BreakFrom(line, i + 1)
  }

  /** The part of the line the splitter reads. */
  function Content(line: string): (s: string)
    ensures forall i :: 0 <= i < |s| ==> !IsBreak(s[i])
  {
    line[..LineEnd(line)]
  }

  /** The first quoted-field terminator at or after `k`, or `|t|` when there
      is none, where `q` quotes precede `k`. */
  function QuotedEnd(t: string, k: nat, q: nat): (j: nat)
    requires k <= |t|
    ensures k <= j <= |t|
    decreases |t| - k
  {
    if k == |t| then |t|
    else if t[k] == '"' then QuotedEnd(t, k + 1, q + 1)
    else if t[k] == ',' && q % 2 == 0 then k
    else QuotedEnd(t, k + 1, q)
  }

  /** `token` in front of the fields of the rest of the line. */
  function Cons(token: string, rest: Result<seq<string>, SplitError>): Result<seq<string>, SplitError>
  {
    match rest
    case Success(ts) => Success([token] + ts)
    case Failure(e) => Failure(e)
  }

  /** The fields of `s`, a line content or a suffix of one that starts a field.
      - an empty rest is one empty field;
      - a comma closes an empty field;
      - a field opened by a quote runs to its terminator (or the end) and
        loses its first and last character, doubled quotes collapsed; when
        that range is inverted the substring call throws;
      - any other field runs verbatim to the next comma or the end. */
  function Fields(s: string): Result<seq<string>, SplitError>
    decreases |s|
  {
    if s == [] then Success([""])
    else if s[0] == ',' then
      Cons("", Fields(s[1..]))
    else if s[0] == '"' then
      var j := QuotedEnd(s, 1, 1);
      if j < 2 then Failure(StringIndexOutOfBounds)
      else if j < |s| then Cons(CollapseQuotes(s[1..j - 1]), Fields(s[j + 1..]))
      else Success([CollapseQuotes(s[1..j - 1])])
    else
      var j := IndexOf(s, ',');
      if j < |s| then Cons(s[..j], Fields(s[j + 1..])) else Success([s])
  }
}
