/** The `escaped(name)` of the three databases: Postgres and Db2 wrap a
    name in double quotes, MariaDB in backticks. */
module Escapes {
  import opened SqlWords

  function DoubleQuoted(name: string): string
  {
    "\"" + name + "\""
  }

  function Backticked(name: string): string
  {
    "`" + name + "`"
  }

  /** The name inside an escaped name: everything but its first and last
      character. */
  function Unwrapped(s: string): string
    requires |s| >= 2
  {
    s[1..|s| - 1]
  }

  /** Double quoting adds one quote on each side and nothing else, so it
      can be undone and no two names share an escape. */
  lemma DoubleQuotedRoundTrip(name: string)
    ensures |DoubleQuoted(name)| == |name| + 2
    ensures DoubleQuoted(name)[0] == '"' && DoubleQuoted(name)[|name| + 1] == '"'
    ensures Unwrapped(DoubleQuoted(name)) == name
  {
    assert DoubleQuoted(name)[1..|name| + 1] == name;
  }

  /** Backticks likewise. */
  lemma BacktickedRoundTrip(name: string)
    ensures |Backticked(name)| == |name| + 2
    ensures Backticked(name)[0] == '`' && Backticked(name)[|name| + 1] == '`'
    ensures Unwrapped(Backticked(name)) == name
  {
    assert Backticked(name)[1..|name| + 1] == name;
  }

  /** Both escapes keep a plain identifier free of spaces, placeholders,
      commas, line breaks and dots. */
  lemma EscapedBare(n: string)
    requires Bare(n)
    ensures Bare(DoubleQuoted(n)) && Bare(Backticked(n))
  {
    assert DoubleQuoted(n) == ['"'] + n + ['"'];
    assert Backticked(n) == ['`'] + n + ['`'];
  }

  lemma EscapesQuote()
    ensures Quoting(DoubleQuoted) && Quoting(Backticked)
  {
    forall n | Bare(n)
      ensures Bare(DoubleQuoted(n)) && Bare(Backticked(n))
    {
      EscapedBare(n);
    }
  }
}
