/** `MariaDbConnection::buildClientQuery` (src/MariaDbConnection.cpp:1305-1346) against a
    reference lexer for SQL string literals. */
module ClientInfo {
  import opened Strings

  const QUOTE: char := '\''
  const BACKSLASH: char := '\\'
  const NUL: char := 0 as char

  predicate NeedsEscape(c: char, noBackslashEscapes: bool) {
    c == QUOTE || (!noBackslashEscapes && (c == BACKSLASH || c == '"' || c == NUL))
  }

  /** What the loops append for one character, and for the value. */
  function Unit(c: char, noBackslashEscapes: bool): string {
    if !NeedsEscape(c, noBackslashEscapes) then [c]
    else [if noBackslashEscapes then QUOTE else BACKSLASH, c]
  }

  function Escaped(value: string, noBackslashEscapes: bool): string {
    if value == [] then [] else Unit(value[0], noBackslashEscapes) + Escaped(value[1..], noBackslashEscapes)
  }

  lemma EscapedFrom(value: string, i: nat, noBackslashEscapes: bool)
    requires i < |value|
    ensures Escaped(value[i..], noBackslashEscapes)
         == Unit(value[i], noBackslashEscapes) + Escaped(value[i + 1..], noBackslashEscapes)
  {
    assert value[i..][1..] == value[i + 1..];
  }

  method BuildClientQuery(name: string, value: string, noBackslashEscapes: bool) returns (query: string)
    ensures query == "SET @" + name + "=" +
      if value == [] then "NULL" else [QUOTE] + Escaped(value, noBackslashEscapes) + [QUOTE]
  {
    query := "SET @" + name + "=";
    if value == [] { return query + "NULL"; }
    ghost var head := query;
    query := query + [QUOTE];
    var charsOffset := 0;
    while charsOffset < |value|
      invariant 0 <= charsOffset <= |value|
      invariant query + Escaped(value[charsOffset..], noBackslashEscapes)
             == head + [QUOTE] + Escaped(value, noBackslashEscapes)
    {
      var charValue := value[charsOffset];
      ghost var before := query;
      EscapedFrom(value, charsOffset, noBackslashEscapes);
      if NeedsEscape(charValue, noBackslashEscapes) {
        query := query + [if noBackslashEscapes then QUOTE else BACKSLASH];
      }
      query := query + [charValue];
      charsOffset := charsOffset + 1;
      assert query == before + Unit(charValue, noBackslashEscapes);
      Regroup2(before, Unit(charValue, noBackslashEscapes), Escaped(value[charsOffset..], noBackslashEscapes));
      hide Unit, Escaped;
    }
    assert value[charsOffset..] == [] && query + [] == query;
    query := query + [QUOTE];
    assert query == head + ([QUOTE] + Escaped(value, noBackslashEscapes) + [QUOTE]);
  }

  // ---------- the reference lexer ----------

  /** What a backslash and the character behind it stand for. */
  function Unescaped(c: char): string {
    match c
    case '0' => [NUL]
    case 'b' => [8 as char]
    case 'n' => "\n"
    case 'r' => "\r"
    case 't' => "\t"
    case 'Z' => [26 as char]
    case '%' => "\\%"
    case '_' => "\\_"
    case _ => [c]
  }

  /** A literal read from behind its opening quote: its value and the text after its closing
      quote. A doubled quote stands for one (section 5.3 of SQL-92, ISO/IEC 9075:1992);
      backslash sequences count unless NO_BACKSLASH_ESCAPES is set. */
  function LexLiteral(text: string, noBackslashEscapes: bool): Option<(string, string)> {
    if text == [] then None
    else if text[0] == QUOTE then
      if |text| > 1 && text[1] == QUOTE then Put([QUOTE], LexLiteral(text[2..], noBackslashEscapes))
      else Some(("", text[1..]))
    else if text[0] == BACKSLASH && !noBackslashEscapes then
      if |text| == 1 then None
      else Put(Unescaped(text[1]), LexLiteral(text[2..], noBackslashEscapes))
    else Put([text[0]], LexLiteral(text[1..], noBackslashEscapes))
  }

  function Put(s: string, r: Option<(string, string)>): Option<(string, string)> {
    match r
    case None => None
    case Some((value, rest)) => Some((s + value, rest))
  }

  /** Whatever follows the literal, unless it is another quote, the lexer reads exactly the value
      and stops at the closing quote. */
  lemma {:induction false} LexUndoesEscape(value: string, rest: string, noBackslashEscapes: bool)
    requires rest == [] || rest[0] != QUOTE
    ensures LexLiteral(Escaped(value, noBackslashEscapes) + ([QUOTE] + rest), noBackslashEscapes)
         == Some((value, rest))
  {
    if value == [] {
      assert [] + ([QUOTE] + rest) == [QUOTE] + rest;
      assert ([QUOTE] + rest)[1..] == rest;
    } else {
      var more := Escaped(value[1..], noBackslashEscapes);
      LexUndoesEscape(value[1..], rest, noBackslashEscapes);
      LexUnit(value[0], more + ([QUOTE] + rest), noBackslashEscapes);
      Regroup2(Unit(value[0], noBackslashEscapes), more, [QUOTE] + rest);
      hide LexLiteral, Unit;
      assert [value[0]] + value[1..] == value;
    }
  }

  lemma LexUnit(c: char, more: string, noBackslashEscapes: bool)
    ensures LexLiteral(Unit(c, noBackslashEscapes) + more, noBackslashEscapes)
         == Put([c], LexLiteral(more, noBackslashEscapes))
  {
    var text := Unit(c, noBackslashEscapes) + more;
    assert text[|Unit(c, noBackslashEscapes)|..] == more;
  }

  /** The text `buildClientQuery` puts behind "=" is one literal, it ends with the query, and it
      denotes the value. */
  lemma QueryLiteralDenotesValue(name: string, value: string, noBackslashEscapes: bool, query: string)
    requires value != []
    requires query == "SET @" + name + "=" + ([QUOTE] + Escaped(value, noBackslashEscapes) + [QUOTE])
    ensures var at := |"SET @" + name + "="|;
            query[at] == QUOTE && LexLiteral(query[at + 1..], noBackslashEscapes) == Some((value, ""))
  {
    LexUndoesEscape(value, "", noBackslashEscapes);
    var head, body := "SET @" + name + "=", Escaped(value, noBackslashEscapes);
    assert [QUOTE] + "" == [QUOTE];
    hide *;
    BehindQuote(head, body);
  }

  lemma BehindQuote(head: string, body: string)
    ensures var query := head + ([QUOTE] + body + [QUOTE]);
            query[|head|] == QUOTE && query[|head| + 1..] == body + [QUOTE]
  {
  }

  // ---------- which characters are escaped ----------

  /** Escaping works character by character. */
  lemma {:induction false} EscapedAppend(a: string, b: string, noBackslashEscapes: bool)
    ensures Escaped(a + b, noBackslashEscapes) == Escaped(a, noBackslashEscapes) + Escaped(b, noBackslashEscapes)
  {
    if a == [] {
      assert a + b == b;
    } else {
      assert (a + b)[0] == a[0] && (a + b)[1..] == a[1..] + b;
      hide Unit;
      EscapedAppend(a[1..], b, noBackslashEscapes);
    }
  }

  /** A character gets another one in front exactly when it is a quote, or, with backslash escapes,
      a backslash, a double quote or NUL: the quote itself without backslash escapes (the doubling
      of section 5.3 of SQL-92), a backslash with them. Any other stands for itself. */
  lemma EscapedCharacter(c: char, noBackslashEscapes: bool)
    ensures Escaped([c], noBackslashEscapes) ==
      if noBackslashEscapes then (if c == '\'' then "''" else [c])
      else if c == '\'' || c == '\\' || c == '"' || c as int == 0 then ['\\', c]
      else [c]
  {
    assert [c][1..] == [];
    assert Unit(c, noBackslashEscapes) + [] == Unit(c, noBackslashEscapes);
  }
}
