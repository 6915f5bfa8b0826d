/** Reading a generated statement back as its words. A statement whose
    parts are separated by single spaces, with no space inside a part,
    splits at its spaces into exactly those parts; the lemmas below build
    the word list of a statement piece by piece, following the order in
    which its string template concatenates them. */
module SqlWords {
  import opened Strings

  /** The words of `s`: its maximal space-free pieces. */
  function Words(s: string): seq<string>
  {
    SplitOn(s, ' ')
  }

  predicate NoSpaces(ws: seq<string>)
  {
    forall k :: 0 <= k < |ws| ==> ' ' !in ws[k]
  }

  /** Holds none of the characters a generated statement gives structure
      to: the word break, the placeholder, the list separator and the line
      break. */
  predicate Clean(s: string)
  {
    ' ' !in s && '?' !in s && ',' !in s && '\n' !in s
  }

  /** Clean, and no path separator either: a plain identifier. */
  predicate Bare(s: string)
  {
    Clean(s) && '.' !in s
  }

  /** An escape function that turns plain identifiers into plain
      identifiers, as wrapping a name in quotes or backticks does. */
  ghost predicate Quoting(esc: string -> string)
  {
    forall n :: Bare(n) ==> Bare(esc(n))
  }

  lemma {:induction false} JoinSnoc(ws: seq<string>, w: string, sep: string)
    requires ws != []
    ensures Join(ws + [w], sep) == Join(ws, sep) + sep + w
  {
    if |ws| == 1 {
      assert (ws + [w])[1..] == [w];
    } else {
      assert (ws + [w])[1..] == ws[1..] + [w];
      JoinSnoc(ws[1..], w, sep);
    }
  }

  /** A statement written as its words separated by single spaces reads
      back as those words. */
  lemma Sentence(s: string, ws: seq<string>)
    requires |ws| > 0 && NoSpaces(ws) && s == Join(ws, " ")
    ensures Words(s) == ws
  {
    assert " " == [' '];
    SplitOnJoin(ws, ' ');
  }

  /** The words of a statement read back as the parts it was joined from. */
  lemma WordsJoin(p: string, ws: seq<string>)
    requires Words(p) == ws
    ensures ws != [] && NoSpaces(ws) && p == Join(ws, " ")
  {
    JoinSplitOn(p, ' ');
    assert " " == [' '];
  }

  /** A single word. */
  lemma Single(w: string)
    requires ' ' !in w
    ensures Words(w) == [w]
  {
    Sentence(w, [w]);
  }

  /** A literal lead-in of one to five keywords, each followed by a space,
      and the word after it. */
  lemma Lead1(lit: string, a: string, x: string)
    requires lit == a + " " && ' ' !in a && ' ' !in x
    ensures Words(lit + x) == [a, x]
  {
    Single(a);
    Then(a, [a], x);
  }

  lemma Lead2(lit: string, a: string, b: string, x: string)
    requires lit == a + " " + b + " " && ' ' !in a && ' ' !in b && ' ' !in x
    ensures Words(lit + x) == [a, b, x]
  {
    Single(a);
    Then(a, [a], b);
    Then(a + " " + b, [a, b], x);
  }

  lemma Lead3(lit: string, a: string, b: string, c: string, x: string)
    requires lit == a + " " + b + " " + c + " " && ' ' !in a && ' ' !in b && ' ' !in c && ' ' !in x
    ensures Words(lit + x) == [a, b, c, x]
  {
    Single(a);
    Then(a, [a], b);
    Then(a + " " + b, [a, b], c);
    Then(a + " " + b + " " + c, [a, b, c], x);
  }

  lemma Lead4(lit: string, a: string, b: string, c: string, d: string, x: string)
    requires lit == a + " " + b + " " + c + " " + d + " "
    requires ' ' !in a && ' ' !in b && ' ' !in c && ' ' !in d && ' ' !in x
    ensures Words(lit + x) == [a, b, c, d, x]
  {
    Lead3(a + " " + b + " " + c + " ", a, b, c, d);
    Then(a + " " + b + " " + c + " " + d, [a, b, c, d], x);
  }

  lemma Lead5(lit: string, a: string, b: string, c: string, d: string, e: string, x: string)
    requires lit == a + " " + b + " " + c + " " + d + " " + e + " "
    requires ' ' !in a && ' ' !in b && ' ' !in c && ' ' !in d && ' ' !in e && ' ' !in x
    ensures Words(lit + x) == [a, b, c, d, e, x]
  {
    Lead4(a + " " + b + " " + c + " " + d + " ", a, b, c, d, e);
    Then(a + " " + b + " " + c + " " + d + " " + e, [a, b, c, d, e], x);
  }

  /** One more word after a space. */
  lemma Then(p: string, ws: seq<string>, x: string)
    requires Words(p) == ws && ' ' !in x
    ensures Words(p + " " + x) == ws + [x]
  {
    WordsJoin(p, ws);
    JoinSnoc(ws, x, " ");
    Sentence(p + " " + x, ws + [x]);
  }

  /** A literal such as `" WHERE "` and the word after it. */
  lemma ThenKeyword(p: string, ws: seq<string>, lit: string, k: string, x: string)
    requires Words(p) == ws && lit == " " + k + " " && ' ' !in k && ' ' !in x
    ensures Words(p + lit + x) == ws + [k, x]
  {
    Then(p, ws, k);
    Then(p + " " + k, ws + [k], x);
    assert p + lit + x == p + " " + k + " " + x;
    assert ws + [k] + [x] == ws + [k, x];
  }

  /** A literal such as `" ORDER BY "` and the word after it. */
  lemma ThenKeywords(p: string, ws: seq<string>, lit: string, k1: string, k2: string, x: string)
    requires Words(p) == ws && lit == " " + k1 + " " + k2 + " " && ' ' !in k1 && ' ' !in k2 && ' ' !in x
    ensures Words(p + lit + x) == ws + [k1, k2, x]
  {
    Then(p, ws, k1);
    ThenKeyword(p + " " + k1, ws + [k1], " " + k2 + " ", k2, x);
    assert p + lit + x == p + " " + k1 + (" " + k2 + " ") + x;
    assert ws + [k1] + [k2, x] == ws + [k1, k2, x];
  }

  /** A trailing literal such as `" CASCADE"`. */
  lemma ThenLast(p: string, ws: seq<string>, lit: string, k: string)
    requires Words(p) == ws && lit == " " + k && ' ' !in k
    ensures Words(p + lit) == ws + [k]
  {
    Then(p, ws, k);
    assert p + lit == p + " " + k;
  }

  /** `WHERE column cmp value`. */
  lemma WhereCompare(p: string, ws: seq<string>, column: string, cmp: string, x: string)
    requires Words(p) == ws && ' ' !in column && ' ' !in cmp && ' ' !in x
    ensures Words(p + " WHERE " + column + " " + cmp + " " + x) == ws + ["WHERE", column, cmp, x]
  {
    var p1 := p + " WHERE " + column;
    ThenKeyword(p, ws, " WHERE ", "WHERE", column);
    Then(p1, ws + ["WHERE", column], cmp);
    Then(p1 + " " + cmp, ws + ["WHERE", column, cmp], x);
  }

  /** `ORDER BY column order LIMIT n`. */
  lemma OrderLimit(p: string, ws: seq<string>, column: string, order: string, limit: string)
    requires Words(p) == ws && ' ' !in column && ' ' !in order && ' ' !in limit
    ensures Words(p + " ORDER BY " + column + " " + order + " LIMIT " + limit)
         == ws + ["ORDER", "BY", column, order, "LIMIT", limit]
  {
    var p1 := p + " ORDER BY " + column;
    ThenKeywords(p, ws, " ORDER BY ", "ORDER", "BY", column);
    Then(p1, ws + ["ORDER", "BY", column], order);
    ThenKeyword(p1 + " " + order, ws + ["ORDER", "BY", column, order], " LIMIT ", "LIMIT", limit);
  }

  /** The words of `DELETE FROM table WHERE key = ?`, and its single `?`. */
  lemma DeleteRowText(table: string, key: string)
    requires Clean(table) && Clean(key)
    ensures Count("DELETE FROM " + table + " WHERE " + key + " = ?", '?') == 1
    ensures Words("DELETE FROM " + table + " WHERE " + key + " = ?") == ["DELETE", "FROM", table, "WHERE", key, "=", "?"]
  {
    var p := "DELETE FROM " + table + " WHERE " + key;
    MarkedOnce(p);
    Lead2("DELETE FROM ", "DELETE", "FROM", table);
    ThenKeyword("DELETE FROM " + table, ["DELETE", "FROM", table], " WHERE ", "WHERE", key);
    ThenKeyword(p, ["DELETE", "FROM", table, "WHERE", key], " = ", "=", "?");
    assert p + " = ?" == p + " = " + "?";
  }

  /** `name = ?` holds the one `?` of the assignment. */
  lemma MarkedOnce(n: string)
    requires '?' !in n
    ensures Count(n + " = ?", '?') == 1
  {
    CountConcat(n, " = ?", '?');
    CountAbsent(n, '?');
    assert Count(" = ?", '?') == 1;
  }

  /** The `?` of an insert are those of its placeholder list. */
  lemma InsertText(table: string, columns: string, questions: string)
    requires '?' !in table && '?' !in columns
    ensures Count("INSERT INTO " + table + " (" + columns + ") VALUES (" + questions + ")", '?') == Count(questions, '?')
  {
    var pre := "INSERT INTO " + table + " (" + columns + ") VALUES (";
    CountAbsent(pre, '?');
    CountConcat(pre, questions, '?');
    CountConcat(pre + questions, ")", '?');
  }

  /** The `?` of an update are those of its assignments and the one of its
      key condition. */
  lemma UpdateText(table: string, assignments: string, key: string)
    requires '?' !in table && '?' !in key
    ensures Count("UPDATE " + table + " SET " + assignments + " WHERE " + key + " = ?", '?') == Count(assignments, '?') + 1
  {
    var head := "UPDATE " + table + " SET ";
    var cond := " WHERE " + key;
    assert head + assignments + " WHERE " + key + " = ?" == head + assignments + (cond + " = ?");
    CountAbsent(head, '?');
    CountConcat(head, assignments, '?');
    CountConcat(head + assignments, cond + " = ?", '?');
    MarkedOnce(cond);
  }

  /** The words of a cursor select. */
  lemma CursorWords(table: string, column: string, cmp: string, x: string, order: string, limit: string)
    requires ' ' !in table && ' ' !in column && ' ' !in cmp && ' ' !in x && ' ' !in order && ' ' !in limit
    ensures Words("SELECT * FROM " + table + " WHERE " + column + " " + cmp + " " + x
                  + " ORDER BY " + column + " " + order + " LIMIT " + limit)
         == ["SELECT", "*", "FROM", table, "WHERE", column, cmp, x, "ORDER", "BY", column, order, "LIMIT", limit]
  {
    var p := "SELECT * FROM " + table + " WHERE " + column + " " + cmp + " " + x;
    var ws := ["SELECT", "*", "FROM", table, "WHERE", column, cmp, x];
    SelectWhere(table, column, cmp, x);
    OrderLimit(p, ws, column, order, limit);
    assert ws + ["ORDER", "BY", column, order, "LIMIT", limit]
        == ["SELECT", "*", "FROM", table, "WHERE", column, cmp, x, "ORDER", "BY", column, order, "LIMIT", limit];
  }

  /** The words of `SELECT * FROM table WHERE column cmp x`. */
  lemma SelectWhere(table: string, column: string, cmp: string, x: string)
    requires ' ' !in table && ' ' !in column && ' ' !in cmp && ' ' !in x
    ensures Words("SELECT * FROM " + table + " WHERE " + column + " " + cmp + " " + x)
         == ["SELECT", "*", "FROM", table, "WHERE", column, cmp, x]
  {
    var ws := ["SELECT", "*", "FROM", table];
    Lead3("SELECT * FROM ", "SELECT", "*", "FROM", table);
    WhereCompare("SELECT * FROM " + table, ws, column, cmp, x);
    assert ws + ["WHERE", column, cmp, x] == ["SELECT", "*", "FROM", table, "WHERE", column, cmp, x];
  }

  /** The words of a page select. */
  lemma PageWords(table: string, column: string, order: string, limit: string, offset: string)
    requires ' ' !in table && ' ' !in column && ' ' !in order && ' ' !in limit && ' ' !in offset
    ensures Words("SELECT * FROM " + table + " ORDER BY " + column + " " + order + " LIMIT " + limit + " OFFSET " + offset)
         == ["SELECT", "*", "FROM", table, "ORDER", "BY", column, order, "LIMIT", limit, "OFFSET", offset]
  {
    var ws := ["SELECT", "*", "FROM", table, "ORDER", "BY", column, order, "LIMIT", limit];
    SelectOrdered(table, column, order, limit);
    ThenKeyword("SELECT * FROM " + table + " ORDER BY " + column + " " + order + " LIMIT " + limit, ws, " OFFSET ", "OFFSET", offset);
    assert ws + ["OFFSET", offset] == ["SELECT", "*", "FROM", table, "ORDER", "BY", column, order, "LIMIT", limit, "OFFSET", offset];
  }

  /** The words of `SELECT * FROM table ORDER BY column order LIMIT n`. */
  lemma SelectOrdered(table: string, column: string, order: string, limit: string)
    requires ' ' !in table && ' ' !in column && ' ' !in order && ' ' !in limit
    ensures Words("SELECT * FROM " + table + " ORDER BY " + column + " " + order + " LIMIT " + limit)
         == ["SELECT", "*", "FROM", table, "ORDER", "BY", column, order, "LIMIT", limit]
  {
    var ws := ["SELECT", "*", "FROM", table];
    Lead3("SELECT * FROM ", "SELECT", "*", "FROM", table);
    OrderLimit("SELECT * FROM " + table, ws, column, order, limit);
    assert ws + ["ORDER", "BY", column, order, "LIMIT", limit] == ["SELECT", "*", "FROM", table, "ORDER", "BY", column, order, "LIMIT", limit];
  }

  /** A suffix that a flag switches on, as Kotlin's `if (flag) " …" else ""`. */
  function Flag(on: bool, text: string): string
  {
    if on then text else ""
  }

  /** Two words. */
  lemma Pair(a: string, b: string)
    requires ' ' !in a && ' ' !in b
    ensures Words(a + " " + b) == [a, b]
  {
    Single(a);
    Then(a, [a], b);
  }

  /** An optional one-word suffix such as `" UNIQUE"`. */
  lemma ThenFlag1(p: string, ws: seq<string>, on: bool, lit: string, k: string)
    requires Words(p) == ws && lit == " " + k && ' ' !in k
    ensures Words(p + Flag(on, lit)) == ws + (if on then [k] else [])
  {
    if on {
      ThenLast(p, ws, lit, k);
    } else {
      assert p + Flag(on, lit) == p;
    }
  }

  /** An optional two-word suffix such as `" NOT NULL"`. */
  lemma ThenFlag2(p: string, ws: seq<string>, on: bool, lit: string, k1: string, k2: string)
    requires Words(p) == ws && lit == " " + k1 + " " + k2 && ' ' !in k1 && ' ' !in k2
    ensures Words(p + Flag(on, lit)) == ws + (if on then [k1, k2] else [])
  {
    if on {
      Then(p, ws, k1);
      Then(p + " " + k1, ws + [k1], k2);
      assert p + lit == p + " " + k1 + " " + k2;
      assert ws + [k1] + [k2] == ws + [k1, k2];
    } else {
      assert p + Flag(on, lit) == p;
    }
  }

  /** An optional three-word suffix such as `" ON DELETE CASCADE"`. */
  lemma ThenFlag3(p: string, ws: seq<string>, on: bool, lit: string, k1: string, k2: string, k3: string)
    requires Words(p) == ws && lit == " " + k1 + " " + k2 + " " + k3 && ' ' !in k1 && ' ' !in k2 && ' ' !in k3
    ensures Words(p + Flag(on, lit)) == ws + (if on then [k1, k2, k3] else [])
  {
    if on {
      var two := " " + k1 + " " + k2;
      ThenFlag2(p, ws, true, two, k1, k2);
      assert Flag(true, two) == two;
      Then(p + two, ws + [k1, k2], k3);
      assert p + lit == p + two + " " + k3;
      assert ws + [k1, k2] + [k3] == ws + [k1, k2, k3];
    } else {
      assert p + Flag(on, lit) == p;
    }
  }

  /** `name type PRIMARY KEY`, the start of every primary key definition. */
  lemma PrimaryKeyText(name: string, kind: string)
    requires ' ' !in name && ' ' !in kind
    ensures Words(name + " " + kind + " PRIMARY KEY") == [name, kind, "PRIMARY", "KEY"]
  {
    var p := name + " " + kind;
    Pair(name, kind);
    ThenLast(p, [name, kind], " PRIMARY", "PRIMARY");
    ThenLast(p + " PRIMARY", [name, kind, "PRIMARY"], " KEY", "KEY");
    assert p + " PRIMARY KEY" == p + " PRIMARY" + " KEY";
  }
}
