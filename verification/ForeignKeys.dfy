/** One foreign-key clause of `SHOW CREATE TABLE`: how the server prints it and how
    `getImportedKeys` parses it (src/MariaDbDatabaseMetaData.cpp:128-168 and 225-271). */
module ForeignKeys {
  import opened Strings
  import opened Replace
  import opened Identifiers

  // ---------- parseIdentifierList ----------

  /** The loop behind the opening parenthesis. */
  function ListLoop(part: string, pos: nat, startPos: nat, list: seq<Identifier>)
    : (r: Parsed<seq<Identifier>>)
    ensures r.Parsed? ==> pos < r.pos <= |part|
    decreases |part| - pos
  {
    var p := SkipWhite(part, pos);
    if p >= |part| then Broken(OutOfRange)
    else if part[p] == ')' then Parsed(p + 1, list)
    else if part[p] == TICK then
      match ParseIdentifier(part, p, NO_IDENTIFIER)
      case Broken(e) => Broken(e)
      case Parsed(next, id) => ListLoop(part, next, startPos, list + [id])
    else if part[p] == ',' then ListLoop(part, p + 1, startPos, list)
    else Broken(ParseError(startPos))
  }

  /** Every success lies strictly beyond the start and inside the text. */
  function ParseIdentifierList(part: string, startPos: nat): (r: Parsed<seq<Identifier>>)
    ensures r.Parsed? ==> startPos < r.pos <= |part|
  {
    var pos := SkipWhite(part, startPos);
    if pos >= |part| then Broken(OutOfRange)
    else if part[pos] != '(' then Broken(ParseError(pos))
    else ListLoop(part, pos + 1, startPos, [])
  }

  method ParseIdentifierListLoop(part: string, startPos: nat) returns (r: Parsed<seq<Identifier>>)
    ensures r == ParseIdentifierList(part, startPos)
  {
    var pos: nat := SkipWhiteLoop(part, startPos);
    if pos >= |part| { return Broken(OutOfRange); }
    if part[pos] != '(' { return Broken(ParseError(pos)); }
    pos := pos + 1;
    var list := [];
    while true
      invariant pos <= |part|
      invariant ParseIdentifierList(part, startPos) == ListLoop(part, pos, startPos, list)
      decreases |part| - pos
    {
      pos := SkipWhiteLoop(part, pos);
      if pos >= |part| { return Broken(OutOfRange); }
      if part[pos] == ')' {
        return Parsed(pos + 1, list);
      } else if part[pos] == TICK {
        var one := ParseIdentifierLoop(part, pos, NO_IDENTIFIER);
        if one.Broken? { return Broken(one.error); }
        pos, list := one.pos, list + [one.value];
      } else if part[pos] == ',' {
        pos := pos + 1;
      } else {
        return Broken(ParseError(startPos));
      }
    }
  }

  // ---------- one clause ----------

  /** What `getImportedKeys` reads out of one line, apart from the actions. */
  datatype ForeignKey = ForeignKey(
    constraint: Identifier, columns: seq<Identifier>, table: Identifier, refColumns: seq<Identifier>)

  datatype Result<+T> = Ok(value: T) | Err(error: Failure)

  function ParseClause(part: string): Result<ForeignKey> {
    match SkipKeyword(part, 0, "CONSTRAINT")
    case Broken(e) => Err(e)
    case Parsed(p1, _) =>
    match ParseIdentifier(part, p1, NO_IDENTIFIER)
    case Broken(e) => Err(e)
    case Parsed(p2, constraint) =>
    match SkipKeyword(part, p2, "FOREIGN KEY")
    case Broken(e) => Err(e)
    case Parsed(p3, _) =>
    match ParseIdentifierList(part, p3)
    case Broken(e) => Err(e)
    case Parsed(p4, columns) =>
    match SkipKeyword(part, p4, "REFERENCES")
    case Broken(e) => Err(e)
    case Parsed(p5, _) =>
    match ParseIdentifier(part, p5, NO_IDENTIFIER)
    case Broken(e) => Err(e)
    case Parsed(p6, table) =>
    match ParseIdentifierList(part, p6)
    case Broken(e) => Err(e)
    case Parsed(_, refColumns) =>
      if |refColumns| != |columns| then Err(ParseError(0))
      else Ok(ForeignKey(constraint, columns, table, refColumns))
  }

  method ParseClauseSteps(part: string) returns (r: Result<ForeignKey>)
    ensures r == ParseClause(part)
  {
    var word := SkipKeywordLoop(part, 0, "CONSTRAINT");
    if word.Broken? { return Err(word.error); }
    var constraint := ParseIdentifierLoop(part, word.pos, NO_IDENTIFIER);
    if constraint.Broken? { return Err(constraint.error); }
    word := SkipKeywordLoop(part, constraint.pos, "FOREIGN KEY");
    if word.Broken? { return Err(word.error); }
    var columns := ParseIdentifierListLoop(part, word.pos);
    if columns.Broken? { return Err(columns.error); }
    word := SkipKeywordLoop(part, columns.pos, "REFERENCES");
    if word.Broken? { return Err(word.error); }
    var table := ParseIdentifierLoop(part, word.pos, NO_IDENTIFIER);
    if table.Broken? { return Err(table.error); }
    var refColumns := ParseIdentifierListLoop(part, table.pos);
    if refColumns.Broken? { return Err(refColumns.error); }
    if |refColumns.value| != |columns.value| { return Err(ParseError(0)); }
    return Ok(ForeignKey(constraint.value, columns.value, table.value, refColumns.value));
  }

  // ---------- the server's text ----------

  /** The actions a clause can name. */
  datatype Action = Restrict | Cascade | SetNull | NoAction | SetDefault

  function ActionText(a: Action): string {
    match a
    case Restrict => "RESTRICT"
    case Cascade => "CASCADE"
    case SetNull => "SET NULL"
    case NoAction => "NO ACTION"
    case SetDefault => "SET DEFAULT"
  }

  /** A foreign key; an empty `refSchema` stands for none. `gap` is what separates list items
      after the comma (server versions differ). */
  datatype Clause = Clause(
    constraint: string, columns: seq<string>, refSchema: string, refTable: string,
    refColumns: seq<string>, onDelete: Option<Action>, onUpdate: Option<Action>, gap: string)

  predicate Spaces(s: string) {
    forall i :: 0 <= i < |s| ==> s[i] == ' '
  }

  ghost predicate WellFormed(c: Clause) {
    |c.columns| == |c.refColumns| && Spaces(c.gap)
  }

  function PrintMore(names: seq<string>, gap: string): (s: string)
    ensures s != [] && (s[0] == ',' || s[0] == ')')
  {
    if names == [] then ")" else "," + (gap + (Quoted(names[0]) + PrintMore(names[1..], gap)))
  }

  function PrintList(names: seq<string>, gap: string): string {
    if names == [] then "()" else "(" + (Quoted(names[0]) + PrintMore(names[1..], gap))
  }

  function PrintTable(schema: string, table: string): string {
    if schema == "" then Quoted(table) else Quoted(schema) + ("." + Quoted(table))
  }

  function PrintAction(prefix: string, a: Option<Action>): string {
    if a.None? then "" else " " + (prefix + ActionText(a.value))
  }

  function PrintActions(c: Clause): string {
    PrintAction("ON DELETE ", c.onDelete) + PrintAction("ON UPDATE ", c.onUpdate)
  }

  function ReferencedColumnsText(c: Clause, end: string): string {
    " " + (PrintList(c.refColumns, c.gap) + (PrintActions(c) + end))
  }

  function TableText(c: Clause, end: string): (s: string) {
    " " + (PrintTable(c.refSchema, c.refTable) + ReferencedColumnsText(c, end))
  }

  function ReferencesText(c: Clause, end: string): string {
    " " + ("REFERENCES" + TableText(c, end))
  }

  function ColumnsText(c: Clause, end: string): string {
    " " + (PrintList(c.columns, c.gap) + ReferencesText(c, end))
  }

  function ForeignKeyText(c: Clause, end: string): string {
    " " + ("FOREIGN KEY" + ColumnsText(c, end))
  }

  function NameText(c: Clause, end: string): string {
    " " + (Quoted(c.constraint) + ForeignKeyText(c, end))
  }

  /** The clause as it stands on its line; `end` is what follows it there. */
  function PrintClause(c: Clause, end: string): string {
    "CONSTRAINT" + NameText(c, end)
  }

  function Names(names: seq<string>): (ids: seq<Identifier>)
    ensures |ids| == |names| && forall i :: 0 <= i < |ids| ==> ids[i] == Identifier("", names[i])
  {
    seq(|names|, i requires 0 <= i < |names| => Identifier("", names[i]))
  }

  // ---------- parsing undoes printing ----------

  lemma ReadsKeyword(part: string, from: nat, w: string, keyword: string, rest: string)
    requires OccursAt(part, w + (keyword + rest), from) && AllSpace(w)
    requires keyword != [] && !IsSpace(keyword[0])
    ensures var p := from + |w| + |keyword|;
            SkipKeyword(part, from, keyword) == Parsed(p, ()) && OccursAt(part, rest, p)
  {
    hide OccursAt;
    SpacesThen(part, from, w, keyword + rest);
    OccursSplit(part, keyword, rest, from + |w|);
    assert keyword[0..] == keyword;
    OccursWithin(part, keyword, from + |w|);
    MatchesKeyword(part, from + |w|, keyword, 0);
  }

  lemma OccursWithin(part: string, needle: string, i: nat)
    requires OccursAt(part, needle, i)
    ensures i + |needle| <= |part|
  {
  }

  /** White space in front of a text is what `skipWhite` skips. */
  lemma SpacesThen(part: string, from: nat, w: string, text: string)
    requires OccursAt(part, w + text, from) && AllSpace(w) && text != [] && !IsSpace(text[0])
    ensures OccursAt(part, text, from + |w|) && SkipWhite(part, from) == from + |w|
    ensures part[from + |w|] == text[0]
  {
    OccursSplit(part, w, text, from);
    OccursSplit(part, text, [], from + |w|);
    assert text + [] == text;
    forall i | from <= i < from + |w| ensures IsSpace(part[i]) {
      assert part[i] == part[from..from + |w|][i - from];
    }
    SkipsTo(part, from, from + |w|);
  }

  lemma QuotedStarts(n: string)
    ensures Quoted(n) != [] && Quoted(n)[0] == TICK && !IsSpace(TICK)
  {
  }

  lemma ReadsName(part: string, from: nat, w: string, n: string, rest: string, id: Identifier)
    requires OccursAt(part, w + (Quoted(n) + rest), from) && AllSpace(w)
    requires rest != [] && rest[0] != TICK && rest[0] != '.'
    ensures var p := from + |w| + |Quoted(n)|;
            ParseIdentifier(part, from, id) == Parsed(p, id.(name := n)) && OccursAt(part, rest, p)
  {
    QuotedStarts(n);
    NameThen(part, from, w, n, rest);
    hide Quoted;
    var p := from + |w| + |Quoted(n)|;
    NameScanned(part, from, n, p, id);
    ScanCloses(part, p, n, from, id);
  }

  lemma NameThen(part: string, from: nat, w: string, n: string, rest: string)
    requires OccursAt(part, w + (Quoted(n) + rest), from) && AllSpace(w)
    requires rest != [] && rest[0] != TICK
    ensures var p := from + |w| + |Quoted(n)|;
            NameAt(part, SkipWhite(part, from), n, p) && OccursAt(part, rest, p) && part[p] == rest[0]
            && SkipWhite(part, from) == from + |w| && part[from + |w|] == TICK
  {
    QuotedStarts(n);
    hide Quoted;
    SpacesThen(part, from, w, Quoted(n) + rest);
    OccursSplit(part, Quoted(n), rest, from + |w|);
    OccursSplit(part, rest, [], from + |w| + |Quoted(n)|);
    assert rest + [] == rest;
  }

  lemma ReadsTable(part: string, from: nat, w: string, schema: string, table: string, rest: string)
    requires OccursAt(part, w + (PrintTable(schema, table) + rest), from) && AllSpace(w)
    requires rest != [] && rest[0] != TICK && rest[0] != '.'
    ensures var p := from + |w| + |PrintTable(schema, table)|;
            ParseIdentifier(part, from, NO_IDENTIFIER) == Parsed(p, Identifier(schema, table))
            && OccursAt(part, rest, p)
  {
    hide Quoted, ParseIdentifier, OccursAt;
    if schema == "" {
      ReadsName(part, from, w, table, rest, NO_IDENTIFIER);
    } else {
      Regroup3(Quoted(schema), ".", Quoted(table), rest);
      ReadsSchema(part, from, w, schema, Quoted(table) + rest);
      var p := from + |w| + |Quoted(schema)| + 1;
      assert "" + (Quoted(table) + rest) == Quoted(table) + rest;
      ReadsName(part, p, "", table, rest, Identifier(schema, ""));
    }
  }

  lemma ReadsSchema(part: string, from: nat, w: string, schema: string, rest: string)
    requires OccursAt(part, w + (Quoted(schema) + ("." + rest)), from) && AllSpace(w)
    ensures var p := from + |w| + |Quoted(schema)| + 1;
            ParseIdentifier(part, from, NO_IDENTIFIER) == ParseIdentifier(part, p, Identifier(schema, ""))
            && OccursAt(part, rest, p)
  {
    NameThen(part, from, w, schema, "." + rest);
    hide Quoted;
    var p := from + |w| + |Quoted(schema)|;
    NameScanned(part, from, schema, p, NO_IDENTIFIER);
    ScanCloses(part, p, schema, from, NO_IDENTIFIER);
    OccursSplit(part, ".", rest, p);
  }

  /** One comma, its gap and one name are one item of the loop. */
  lemma ReadsItem(part: string, pos: nat, startPos: nat, list: seq<Identifier>, gap: string, n: string, rest: string)
    requires OccursAt(part, "," + (gap + (Quoted(n) + rest)), pos) && Spaces(gap)
    requires rest != [] && rest[0] != TICK && rest[0] != '.'
    ensures var p := pos + 1 + |gap| + |Quoted(n)|;
            ListLoop(part, pos, startPos, list) == ListLoop(part, p, startPos, list + [Identifier("", n)])
            && OccursAt(part, rest, p)
  {
    hide Quoted;
    OccursSplit(part, ",", gap + (Quoted(n) + rest), pos);
    SkipsTo(part, pos, pos);
    ReadsFirst(part, pos + 1, startPos, list, gap, n, rest);
  }

  lemma ReadsFirst(part: string, pos: nat, startPos: nat, list: seq<Identifier>, gap: string, n: string, rest: string)
    requires OccursAt(part, gap + (Quoted(n) + rest), pos) && Spaces(gap)
    requires rest != [] && rest[0] != TICK && rest[0] != '.'
    ensures var p := pos + |gap| + |Quoted(n)|;
            ListLoop(part, pos, startPos, list) == ListLoop(part, p, startPos, list + [Identifier("", n)])
            && OccursAt(part, rest, p)
  {
    hide Quoted;
    NameThen(part, pos, gap, n, rest);
    var q := pos + |gap|;
    SkipsTo(part, q, q);
    var p := q + |Quoted(n)|;
    NameScanned(part, q, n, p, NO_IDENTIFIER);
    ScanCloses(part, p, n, q, NO_IDENTIFIER);
  }

  lemma {:induction false} ReadsMore(part: string, pos: nat, startPos: nat, list: seq<Identifier>, names: seq<string>, gap: string, rest: string)
    requires OccursAt(part, PrintMore(names, gap) + rest, pos) && Spaces(gap)
    ensures var p := pos + |PrintMore(names, gap)|;
            ListLoop(part, pos, startPos, list) == Parsed(p, list + Names(names)) && OccursAt(part, rest, p)
    decreases |names|
  {
    hide Quoted, ListLoop, OccursAt;
    if names == [] {
      ReadsClosing(part, pos, startPos, list, rest);
      assert list + Names(names) == list;
    } else {
      var n, more := names[0], PrintMore(names[1..], gap);
      Regroup4(",", gap, Quoted(n), more, rest);
      ReadsItem(part, pos, startPos, list, gap, n, more + rest);
      ReadsMore(part, pos + 1 + |gap| + |Quoted(n)|, startPos, list + [Identifier("", n)], names[1..], gap, rest);
      assert list + [Identifier("", n)] + Names(names[1..]) == list + Names(names);
    }
  }

  lemma ReadsClosing(part: string, pos: nat, startPos: nat, list: seq<Identifier>, rest: string)
    requires OccursAt(part, ")" + rest, pos)
    ensures ListLoop(part, pos, startPos, list) == Parsed(pos + 1, list) && OccursAt(part, rest, pos + 1)
  {
    OccursSplit(part, ")", rest, pos);
    SkipsTo(part, pos, pos);
  }

  lemma ReadsOpening(part: string, from: nat, w: string, rest: string)
    requires OccursAt(part, w + ("(" + rest), from) && AllSpace(w)
    ensures ParseIdentifierList(part, from) == ListLoop(part, from + |w| + 1, from, [])
    ensures OccursAt(part, rest, from + |w| + 1)
  {
    hide OccursAt;
    SpacesThen(part, from, w, "(" + rest);
    OccursSplit(part, "(", rest, from + |w|);
    OccursWithin(part, "(" + rest, from + |w|);
  }

  lemma ReadsList(part: string, from: nat, w: string, names: seq<string>, gap: string, rest: string)
    requires OccursAt(part, w + (PrintList(names, gap) + rest), from) && AllSpace(w) && Spaces(gap)
    ensures var p := from + |w| + |PrintList(names, gap)|;
            ParseIdentifierList(part, from) == Parsed(p, Names(names)) && OccursAt(part, rest, p)
  {
    hide Quoted, ListLoop, ParseIdentifierList, OccursAt, PrintMore;
    var start := from + |w| + 1;
    if names == [] {
      PrintMoreNone(gap);
      assert PrintList(names, gap) == "(" + ")";
      Regroup2("(", ")", rest);
      ReadsOpening(part, from, w, PrintMore([], gap) + rest);
      ReadsMore(part, start, from, [], [], gap, rest);
      assert [] + Names(names) == Names(names);
    } else {
      var n, more := names[0], PrintMore(names[1..], gap);
      Regroup3("(", Quoted(n), more, rest);
      ReadsOpening(part, from, w, Quoted(n) + (more + rest));
      assert "" + (Quoted(n) + (more + rest)) == Quoted(n) + (more + rest);
      ReadsFirst(part, start, from, [], "", n, more + rest);
      ReadsMore(part, start + |Quoted(n)|, from, [] + [Identifier("", n)], names[1..], gap, rest);
      assert [] + [Identifier("", n)] + Names(names[1..]) == Names(names);
    }
  }

  lemma PrintMoreNone(gap: string)
    ensures PrintMore([], gap) == ")"
  {
  }

  lemma ReadsConstraint(c: Clause, end: string)
    ensures SkipKeyword(PrintClause(c, end), 0, "CONSTRAINT") == Parsed(10, ())
    ensures OccursAt(PrintClause(c, end), NameText(c, end), 10)
  {
    var part := PrintClause(c, end);
    hide NameText;
    assert "" + ("CONSTRAINT" + NameText(c, end)) == part && part[0..|part|] == part;
    ReadsKeyword(part, 0, "", "CONSTRAINT", NameText(c, end));
  }

  lemma ReadsConstraintName(part: string, p: nat, c: Clause, end: string) returns (q: nat)
    requires OccursAt(part, NameText(c, end), p)
    ensures ParseIdentifier(part, p, NO_IDENTIFIER) == Parsed(q, Identifier("", c.constraint))
    ensures OccursAt(part, ForeignKeyText(c, end), q)
  {
    hide Quoted, ColumnsText;
    ReadsName(part, p, " ", c.constraint, ForeignKeyText(c, end), NO_IDENTIFIER);
    q := p + 1 + |Quoted(c.constraint)|;
  }

  lemma ReadsForeignKey(part: string, p: nat, c: Clause, end: string) returns (q: nat)
    requires OccursAt(part, ForeignKeyText(c, end), p)
    ensures SkipKeyword(part, p, "FOREIGN KEY") == Parsed(q, ()) && OccursAt(part, ColumnsText(c, end), q)
  {
    hide ColumnsText;
    ReadsKeyword(part, p, " ", "FOREIGN KEY", ColumnsText(c, end));
    q := p + 1 + |"FOREIGN KEY"|;
  }

  lemma ReadsColumns(part: string, p: nat, c: Clause, end: string) returns (q: nat)
    requires OccursAt(part, ColumnsText(c, end), p) && WellFormed(c)
    ensures ParseIdentifierList(part, p) == Parsed(q, Names(c.columns))
    ensures OccursAt(part, ReferencesText(c, end), q)
  {
    hide ReferencesText, PrintList;
    ReadsList(part, p, " ", c.columns, c.gap, ReferencesText(c, end));
    q := p + 1 + |PrintList(c.columns, c.gap)|;
  }

  lemma ReadsReferences(part: string, p: nat, c: Clause, end: string) returns (q: nat)
    requires OccursAt(part, ReferencesText(c, end), p)
    ensures SkipKeyword(part, p, "REFERENCES") == Parsed(q, ()) && OccursAt(part, TableText(c, end), q)
  {
    hide TableText;
    ReadsKeyword(part, p, " ", "REFERENCES", TableText(c, end));
    q := p + 1 + |"REFERENCES"|;
  }

  lemma ReadsReferencedTable(part: string, p: nat, c: Clause, end: string) returns (q: nat)
    requires OccursAt(part, TableText(c, end), p)
    ensures ParseIdentifier(part, p, NO_IDENTIFIER) == Parsed(q, Identifier(c.refSchema, c.refTable))
    ensures OccursAt(part, ReferencedColumnsText(c, end), q)
  {
    hide PrintTable, PrintList, PrintActions;
    ReadsTable(part, p, " ", c.refSchema, c.refTable, ReferencedColumnsText(c, end));
    q := p + 1 + |PrintTable(c.refSchema, c.refTable)|;
  }

  lemma ReadsReferencedColumns(part: string, p: nat, c: Clause, end: string) returns (q: nat)
    requires OccursAt(part, ReferencedColumnsText(c, end), p) && WellFormed(c)
    ensures ParseIdentifierList(part, p) == Parsed(q, Names(c.refColumns))
  {
    hide PrintActions, PrintList;
    ReadsList(part, p, " ", c.refColumns, c.gap, PrintActions(c) + end);
    q := p + 1 + |PrintList(c.refColumns, c.gap)|;
  }

  /** The printed clause parses to its own names, columns paired in order. */
  lemma ParsesPrintedClause(c: Clause, end: string)
    requires WellFormed(c)
    ensures ParseClause(PrintClause(c, end))
         == Ok(ForeignKey(Identifier("", c.constraint), Names(c.columns),
                          Identifier(c.refSchema, c.refTable), Names(c.refColumns)))
  {
    assert |c.columns| == |c.refColumns|;
    hide *;
    var part := PrintClause(c, end);
    ReadsConstraint(c, end);
    var p2 := ReadsConstraintName(part, 10, c, end);
    var p3 := ReadsForeignKey(part, p2, c, end);
    var p4 := ReadsColumns(part, p3, c, end);
    var p5 := ReadsReferences(part, p4, c, end);
    var p6 := ReadsReferencedTable(part, p5, c, end);
    var p7 := ReadsReferencedColumns(part, p6, c, end);
    ClauseFromParts(part, 10, p2, p3, p4, p5, p6, p7,
      ForeignKey(Identifier("", c.constraint), Names(c.columns),
                 Identifier(c.refSchema, c.refTable), Names(c.refColumns)));
  }

  lemma ClauseFromParts(part: string, p1: nat, p2: nat, p3: nat, p4: nat, p5: nat, p6: nat, p7: nat, fk: ForeignKey)
    requires SkipKeyword(part, 0, "CONSTRAINT") == Parsed(p1, ())
    requires ParseIdentifier(part, p1, NO_IDENTIFIER) == Parsed(p2, fk.constraint)
    requires SkipKeyword(part, p2, "FOREIGN KEY") == Parsed(p3, ())
    requires ParseIdentifierList(part, p3) == Parsed(p4, fk.columns)
    requires SkipKeyword(part, p4, "REFERENCES") == Parsed(p5, ())
    requires ParseIdentifier(part, p5, NO_IDENTIFIER) == Parsed(p6, fk.table)
    requires ParseIdentifierList(part, p6) == Parsed(p7, fk.refColumns)
    requires |fk.columns| == |fk.refColumns|
    ensures ParseClause(part) == Ok(fk)
  {
    hide SkipKeyword, ParseIdentifier, ParseIdentifierList;
  }
}
