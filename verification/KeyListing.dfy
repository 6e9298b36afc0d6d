/** `getImportedKeys` as an application calls it: the table definition first, and a query of the
    information schema where that cannot be parsed (src/MariaDbDatabaseMetaData.cpp:400-422 and
    1012-1034). */
module KeyListing {
  import opened Strings
  import opened Replace
  import opened Identifiers
  import opened ForeignKeys
  import opened PlainLines
  import opened ImportedKeys
  import opened KeyOrder

  /** What the application gets: rows read out of the definition; what the information schema
      says; the exception for a missing table name; or `std::out_of_range`, which the caller of
      the parser does not catch. */
  datatype Listing = Rows(rows: seq<Row>) | Queried | Refused | Escaped

  /** `definition` is the answer to `SHOW CREATE TABLE`, if there is one. */
  method ListImportedKeys(schema: string, table: string, definition: Option<string>) returns (r: Listing)
    ensures
      if table == "" then r == Refused
      else if schema == "" || definition.None? then r == Queried
      else
        match AllRows(Lines(definition.value), table, schema)
        case Ok(rows) => r.Rows? && Ordered(r.rows) && multiset(r.rows) == multiset(rows)
        case Err(ParseError(_)) => r == Queried
        case Err(OutOfRange) => r == Escaped
  {
    hide AllRows, Lines, Ordered;
    if table == "" { return Refused; }
    if schema == "" || definition.None? { return Queried; }
    var parsed := GetImportedKeys(definition.value, table, schema);
    match parsed
    case Ok(rows) => return Rows(rows);
    case Err(ParseError(_)) => return Queried;
    case Err(OutOfRange) => return Escaped;
  }

  lemma {:induction false} FirstOf(lines: seq<Line>, k: nat) returns (i: nat)
    requires k < |lines| && lines[k].Misread?
    ensures FirstMisread(lines, i)
    decreases k
  {
    i := k;
    if j: nat :| j < k && lines[j].Misread? { i := FirstOf(lines, j); }
  }

  /** A table with a check constraint, as the server prints it: its definition is given up for a
      query of the information schema, and nothing escapes. */
  lemma CheckedTableQueried(lines: seq<Line>, k: nat, table: string, schema: string)
    requires GoodTable(lines) && k < |lines| && lines[k].Misread?
    requires forall i :: 0 <= i < |lines| && lines[i].Misread? ==>
      exists indent, name, condition, comma :: IsCheck(lines[i], indent, name, condition, comma)
    ensures var r := AllRows(Lines(PrintTableDef(lines)), table, schema); r.Err? && r.error.ParseError?
  {
    var i := FirstOf(lines, k);
    var indent, name, condition, comma :| IsCheck(lines[i], indent, name, condition, comma);
    CheckMisread(indent, name, condition, comma);
    hide Lines, AllRows, GoodTable, LineError, PrintTableDef, PrintCheck, GoodLine;
    MisreadFails(lines, i, table, schema);
  }

  ghost predicate IsCheck(l: Line, indent: string, name: string, condition: string, comma: bool) {
    && AllSpace(indent) && NoNewline(indent) && NoNewline(name) && NoNewline(condition)
    && l == Misread(indent + PrintCheck(name, condition, comma))
  }

  // ---------- a name that escapes ----------

  /** A line that ends behind the keyword is read beyond its end. */
  lemma BareConstraint()
    ensures var l := Misread("CONSTRAINT"); GoodLine(l) && LineError(l) == OutOfRange
  {
    BareIsKeyLine();
    ReadsItself("CONSTRAINT");
    NoConstraintName("CONSTRAINT");
    hide Trim, IsKeyLine, ParseClause, SkipKeyword;
  }

  lemma BareIsKeyLine()
    ensures var part := "CONSTRAINT"; NoNewline(part) && Trim(part) == part && IsKeyLine(part)
  {
    var part := "CONSTRAINT";
    assert "" + part == part;
    TrimPadded("", part);
    hide Trim;
    KeyLineStarts(part);
  }

  lemma ReadsItself(keyword: string)
    requires keyword != [] && !IsSpace(keyword[0])
    ensures SkipKeyword(keyword, 0, keyword) == Parsed(|keyword|, ())
  {
    assert keyword[0..|keyword|] == keyword && keyword[0..] == keyword;
    SkipsTo(keyword, 0, 0);
    hide MatchFrom;
    MatchesKeyword(keyword, 0, keyword, 0);
  }

  lemma NoConstraintName(part: string)
    requires SkipKeyword(part, 0, "CONSTRAINT") == Parsed(|part|, ())
    ensures ParseClause(part) == Err(OutOfRange)
  {
    hide SkipKeyword;
  }

  /** A name, or a text, of three lines. */
  function Broken3(a: string, b: string, c: string): string {
    a + ("\n" + (b + ("\n" + c)))
  }

  /** What stands behind a line. */
  function Following(after: seq<Line>): string {
    if after == [] then "" else "\n" + PrintTableDef(after)
  }

  lemma TableDefCons(l: Line, after: seq<Line>)
    ensures PrintTableDef([l] + after) == PrintLine(l) + Following(after)
  {
    assert ([l] + after)[1..] == after;
    assert PrintLine(l) + "" == PrintLine(l);
  }

  /** A line of three lines stands for three lines. */
  lemma {:induction false} ThreeLines(before: seq<Line>, l: Line, a: string, b: string, c: string, after: seq<Line>)
    requires PrintLine(l) == Broken3(a, b, c)
    ensures PrintTableDef(before + ([l] + after)) == PrintTableDef(before + ([Other(a), Misread(b), Other(c)] + after))
    decreases |before|
  {
    var parts := [Other(a), Misread(b), Other(c)] + after;
    hide PrintTableDef, PrintLine, Broken3;
    if before == [] {
      assert before + ([l] + after) == [l] + after && before + parts == parts;
      ThreeHere(l, a, b, c, after);
    } else {
      ThreeLines(before[1..], l, a, b, c, after);
      assert before + ([l] + after) == [before[0]] + (before[1..] + ([l] + after));
      assert before + parts == [before[0]] + (before[1..] + parts);
      TableDefCons(before[0], before[1..] + ([l] + after));
      TableDefCons(before[0], before[1..] + parts);
    }
  }

  lemma ThreeHere(l: Line, a: string, b: string, c: string, after: seq<Line>)
    requires PrintLine(l) == Broken3(a, b, c)
    ensures PrintTableDef([l] + after) == PrintTableDef([Other(a), Misread(b), Other(c)] + after)
  {
    var last := [Other(c)] + after;
    var two := [Misread(b)] + last;
    hide PrintTableDef, PrintLine, Broken3, Following;
    TableDefCons(l, after);
    TableDefCons(Other(c), after);
    OtherText(c);
    OtherBefore(Misread(b), b, last);
    OtherBefore(Other(a), a, two);
    assert [Other(a), Misread(b), Other(c)] + after == [Other(a)] + two;
    hide *;
    JoinedThrice(a, b, c, Following(after));
  }

  lemma OtherBefore(l: Line, t: string, rest: seq<Line>)
    requires (l == Other(t) || l == Misread(t)) && rest != []
    ensures PrintTableDef([l] + rest) == t + ("\n" + PrintTableDef(rest))
  {
    OtherText(t);
    hide PrintTableDef, PrintLine;
    TableDefCons(l, rest);
  }

  lemma OtherText(t: string)
    ensures PrintLine(Other(t)) == t && PrintLine(Misread(t)) == t
  {
    hide PrintPlain, PrintClause;
  }

  lemma JoinedThrice(a: string, b: string, c: string, rest: string)
    ensures Broken3(a, b, c) + rest == a + ("\n" + (b + ("\n" + (c + rest))))
  {
    var n := "\n";
    assert a + (n + (b + (n + c))) + rest == a + (n + (b + (n + (c + rest))));
  }

  /** The line of a column whose name is broken in three. */
  lemma BrokenColumn(indent: string, x: string, b: string, y: string, definition: string)
    requires TickFree(x) && TickFree(b) && TickFree(y)
    ensures PrintLine(Plain(indent, Column(Broken3(x, b, y), definition)))
         == Broken3(indent + ([TICK] + x), b, y + ([TICK] + (" " + definition)))
  {
    var n, d := "\n", " " + definition;
    var name := x + (n + (b + (n + y)));
    DoubledTickFree(name);
    hide Doubled;
    var q := [TICK];
    Regroup5(indent, q, x, n, b, n + (y + (q + d)));
    assert "" + (q + name + q + d) == q + name + q + d;
    assert q + name + q + d == q + (x + (n + (b + (n + (y + (q + d))))));
  }

  lemma Regroup5(indent: string, q: string, x: string, n: string, b: string, rest: string)
    ensures indent + (q + (x + (n + (b + rest)))) == indent + (q + x) + (n + (b + rest))
  {
  }

  /** Wherever the server prints a column whose name is broken around that keyword, with nothing
      in front that fails otherwise, listing the keys fails with an exception that is none of the
      documented ones. */
  lemma BrokenNameEscapes(before: seq<Line>, indent: string, x: string, y: string, definition: string, after: seq<Line>, table: string, schema: string)
    requires TickFree(x) && TickFree(y)
    requires GoodTable(before) && GoodTable(after) && forall i :: 0 <= i < |before| ==> !before[i].Misread?
    requires GoodLine(Other(indent + ([TICK] + x))) && GoodLine(Other(y + ([TICK] + (" " + definition))))
    ensures var column := Plain(indent, Column(Broken3(x, "CONSTRAINT", y), definition));
      AllRows(Lines(PrintTableDef(before + ([column] + after))), table, schema) == Err(OutOfRange)
  {
    var a, b, c := indent + ([TICK] + x), "CONSTRAINT", y + ([TICK] + (" " + definition));
    var column := Plain(indent, Column(Broken3(x, b, y), definition));
    BareConstraint();
    assert TickFree(b);
    hide TickFree, Broken3, PrintLine, Lines, AllRows, GoodLine, LineError, PrintTableDef;
    BrokenColumn(indent, x, b, y, definition);
    ThreeLines(before, column, a, b, c, after);
    var lines := before + ([Other(a), Misread(b), Other(c)] + after);
    GoodThree(before, Other(a), Misread(b), Other(c), after);
    hide GoodTable;
    ThirdMisread(before, a, b, c, after);
    hide FirstMisread;
    MisreadFails(lines, |before| + 1, table, schema);
  }

  lemma ThirdMisread(before: seq<Line>, a: string, b: string, c: string, after: seq<Line>)
    requires forall i :: 0 <= i < |before| ==> !before[i].Misread?
    ensures var lines := before + ([Other(a), Misread(b), Other(c)] + after);
      FirstMisread(lines, |before| + 1) && lines[|before| + 1] == Misread(b)
  {
    var lines := before + ([Other(a), Misread(b), Other(c)] + after);
    assert forall i :: 0 <= i < |before| ==> lines[i] == before[i];
    assert lines[|before|] == Other(a);
  }

  lemma GoodThree(before: seq<Line>, a: Line, b: Line, c: Line, after: seq<Line>)
    requires GoodTable(before) && GoodLine(a) && GoodLine(b) && GoodLine(c) && GoodTable(after)
    ensures GoodTable(before + ([a, b, c] + after))
  {
    hide GoodLine;
    GoodJoin(before, [a, b, c], after);
  }

  lemma GoodJoin(a: seq<Line>, b: seq<Line>, c: seq<Line>)
    requires GoodTable(a) && GoodTable(b) && GoodTable(c)
    ensures GoodTable(a + (b + c))
  {
    hide GoodLine;
    var all := a + (b + c);
    forall i | 0 <= i < |all| ensures GoodLine(all[i]) {
      if i < |a| { assert all[i] == a[i]; }
      else if i < |a| + |b| { assert all[i] == b[i - |a|]; }
      else { assert all[i] == c[i - |a| - |b|]; }
    }
  }
}
