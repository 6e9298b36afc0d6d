/** `getImportedKeys` over a whole table definition (src/MariaDbDatabaseMetaData.cpp:207-334):
    lines, clauses, rows and their order. */
module ImportedKeys {
  import opened Strings
  import opened Replace
  import opened Identifiers
  import opened ForeignKeys
  import opened ReferenceRules
  import opened Containment
  import opened PlainLines
  import opened KeyOrder

  // ---------- lines ----------

  /** `split(str, "\n")` of src/util/String.cpp. */
  function Lines(s: string): (parts: seq<string>)
    ensures parts != []
    decreases |s|
  {
    match Find(s, "\n", 0)
    case None => [s]
    case Some(k) => [s[..k]] + Lines(s[k + 1..])
  }

  function TrimRight(s: string): string {
    if s != [] && IsSpace(s[|s| - 1]) then TrimRight(s[..|s| - 1]) else s
  }

  /** `SQLString::trim`. */
  function Trim(s: string): string {
    TrimRight(s[SkipWhite(s, 0)..])
  }

  predicate IsKeyLine(part: string) {
    "CONSTRAINT" <= part || Find(part, "FOREIGN KEY", 0).Some?
  }

  /** A line is taken for a foreign key exactly when it begins with the one text or holds the
      other. */
  lemma KeyLineIff(part: string)
    ensures IsKeyLine(part) <==>
      (|part| >= 10 && part[..10] == "CONSTRAINT") || exists i: nat :: OccursAt(part, "FOREIGN KEY", i)
  {
    FoundIff(part, "FOREIGN KEY");
    assert |"CONSTRAINT"| == 10;
    hide Find;
  }

  // ---------- rows ----------

  /** The rows of one parsed clause, one for each pair of columns. */
  function ClauseRows(fk: ForeignKey, onUpdate: nat, onDelete: nat, tableName: string, catalog: string)
    : (rows: seq<Row>)
    requires |fk.columns| == |fk.refColumns|
    ensures |rows| == |fk.columns|
  {
    seq(|fk.refColumns|, i requires 0 <= i < |fk.refColumns| =>
      ClauseRow(fk, onUpdate, onDelete, tableName, catalog, i))
  }

  function ClauseRow(fk: ForeignKey, onUpdate: nat, onDelete: nat, tableName: string, catalog: string, i: nat): Row
    requires i < |fk.columns| && i < |fk.refColumns|
  {
    Row(if fk.table.schema == "" then catalog else fk.table.schema,
        fk.table.name, fk.refColumns[i].name, catalog, tableName, fk.columns[i].name,
        Decimal(i + 1), Decimal(onUpdate), Decimal(onDelete), fk.constraint.name, Decimal(7))
  }

  function LineRows(part: string, tableName: string, catalog: string): Result<seq<Row>> {
    if !IsKeyLine(part) then Ok([])
    else
      match ParseClause(part)
      case Err(e) => Err(e)
      case Ok(fk) =>
        if |fk.columns| != |fk.refColumns| then Err(ParseError(0))
        else Ok(ClauseRows(fk, Code(LastFound(part, "ON UPDATE ", 4)), Code(LastFound(part, "ON DELETE ", 4)),
                           tableName, catalog))
  }

  /** The rows of all lines in order; the first failure ends it. */
  function AllRows(parts: seq<string>, tableName: string, catalog: string): Result<seq<Row>> {
    if parts == [] then Ok([])
    else
      match LineRows(Trim(parts[0]), tableName, catalog)
      case Err(e) => Err(e)
      case Ok(rows) =>
        match AllRows(parts[1..], tableName, catalog)
        case Err(e) => Err(e)
        case Ok(more) => Ok(rows + more)
  }

  method AppendRows(data: seq<Row>, fk: ForeignKey, onUpdate: nat, onDelete: nat, tableName: string, catalog: string)
    returns (r: seq<Row>)
    requires |fk.columns| == |fk.refColumns|
    ensures r == data + ClauseRows(fk, onUpdate, onDelete, tableName, catalog)
  {
    hide ClauseRow;
    r := data;
    var i := 0;
    while i < |fk.refColumns|
      invariant 0 <= i <= |fk.refColumns|
      invariant r == data + ClauseRows(fk, onUpdate, onDelete, tableName, catalog)[..i]
    {
      r := r + [ClauseRow(fk, onUpdate, onDelete, tableName, catalog, i)];
      i := i + 1;
    }
  }

  method GetImportedKeys(tableDef: string, tableName: string, catalog: string)
    returns (r: Result<seq<Row>>)
    ensures var all := AllRows(Lines(tableDef), tableName, catalog);
            match all
            case Err(e) => r == Err(e)
            case Ok(rows) => r.Ok? && Ordered(r.value) && multiset(r.value) == multiset(rows)
  {
    hide Trim, Lines, IsKeyLine, ParseClause, LastFound, Code, ClauseRows, Prepend, Sort, Ordered;
    var parts := Lines(tableDef);
    var data: seq<Row> := [];
    var n := 0;
    assert parts[0..] == parts;
    PrependNone(AllRows(parts, tableName, catalog));
    while n < |parts|
      invariant 0 <= n <= |parts|
      invariant AllRows(parts, tableName, catalog) == Prepend(data, AllRows(parts[n..], tableName, catalog))
    {
      var part := Trim(parts[n]);
      ghost var rest := AllRows(parts[n + 1..], tableName, catalog);
      FirstLine(parts[n..], tableName, catalog);
      assert parts[n..][1..] == parts[n + 1..];
      if IsKeyLine(part) {
        var clause := ParseClauseSteps(part);
        if clause.Err? {
          PrependFailure(data, clause.error);
          return Err(clause.error);
        }
        ParsedColumnsPair(part);
        var onUpdate, onDelete := ReferenceActions(part);
        PrependTwice(data, ClauseRows(clause.value, onUpdate, onDelete, tableName, catalog), rest);
        data := AppendRows(data, clause.value, onUpdate, onDelete, tableName, catalog);
      } else {
        PrependTwice(data, [], rest);
        assert data + [] == data;
      }
      n := n + 1;
    }
    PrependDone(data);
    SortOrders(data);
    return Ok(Sort(data));
  }

  lemma FirstLine(parts: seq<string>, tableName: string, catalog: string)
    requires parts != []
    ensures AllRows(parts, tableName, catalog) ==
      match LineRows(Trim(parts[0]), tableName, catalog)
      case Err(e) => Err(e)
      case Ok(rows) => Prepend(rows, AllRows(parts[1..], tableName, catalog))
  {
  }

  lemma ParsedColumnsPair(part: string)
    ensures ParseClause(part).Ok? ==> |ParseClause(part).value.columns| == |ParseClause(part).value.refColumns|
  {
    hide SkipKeyword, ParseIdentifier, ParseIdentifierList;
  }

  ghost function Prepend(rows: seq<Row>, r: Result<seq<Row>>): Result<seq<Row>> {
    match r
    case Err(e) => Err(e)
    case Ok(more) => Ok(rows + more)
  }

  lemma PrependNone(r: Result<seq<Row>>)
    ensures Prepend([], r) == r
  {
    if r.Ok? { assert [] + r.value == r.value; }
  }

  lemma PrependFailure(rows: seq<Row>, e: Failure)
    ensures Prepend(rows, Err(e)) == Err(e)
  {
  }

  lemma PrependDone(rows: seq<Row>)
    ensures Prepend(rows, Ok([])) == Ok(rows)
  {
    assert rows + [] == rows;
  }

  lemma PrependTwice(a: seq<Row>, b: seq<Row>, r: Result<seq<Row>>)
    ensures Prepend(a, Prepend(b, r)) == Prepend(a + b, r)
    ensures Prepend(a, r) == Prepend(a + [], r)
  {
    if r.Ok? { assert a + (b + r.value) == a + b + r.value; }
    assert a + [] == a;
  }

  // ---------- a printed table definition ----------

  /** A line of `SHOW CREATE TABLE`: a foreign key or a plain line behind its indentation; any
      other that the driver passes over; or one that it takes for a key and cannot parse. */
  datatype Line =
    | Key(indent: string, clause: Clause, comma: bool)
    | Plain(indent: string, line: PlainLine)
    | Other(text: string)
    | Misread(text: string)

  function End(comma: bool): string {
    if comma then "," else ""
  }

  function PrintLine(l: Line): string {
    match l
    case Other(text) => text
    case Misread(text) => text
    case Plain(indent, line) => indent + PrintPlain(line)
    case Key(indent, clause, comma) => indent + PrintClause(clause, End(comma))
  }

  /** Lines joined by newlines. */
  function PrintTableDef(lines: seq<Line>): string
    requires lines != []
  {
    if |lines| == 1 then PrintLine(lines[0]) else PrintLine(lines[0]) + ("\n" + PrintTableDef(lines[1..]))
  }

  predicate NoNewline(s: string) {
    forall i :: 0 <= i < |s| ==> s[i] != '\n'
  }

  ghost predicate AllNoNewline(names: seq<string>) {
    forall i :: 0 <= i < |names| ==> NoNewline(names[i])
  }

  ghost predicate GoodLine(l: Line) {
    match l
    case Other(text) => NoNewline(text) && !IsKeyLine(Trim(text))
    case Plain(indent, line) => AllSpace(indent) && NoNewline(indent) && NoNewline(PrintPlain(line)) && Innocent(line)
    case Misread(text) => NoNewline(text) && IsKeyLine(Trim(text)) && ParseClause(Trim(text)).Err?
    case Key(indent, c, _) =>
      && AllSpace(indent) && NoNewline(indent) && WellFormed(c)
      && NoNewline(c.constraint) && AllNoNewline(c.columns) && NoNewline(c.refSchema)
      && NoNewline(c.refTable) && AllNoNewline(c.refColumns)
      && Tellable(c, "ON UPDATE ") && Tellable(c, "ON DELETE ")
  }

  /** The rows a clause stands for. */
  function ClauseMeaning(c: Clause, tableName: string, catalog: string): seq<Row>
    requires |c.columns| == |c.refColumns|
  {
    seq(|c.columns|, i requires 0 <= i < |c.columns| =>
      Row(if c.refSchema == "" then catalog else c.refSchema,
          c.refTable, c.refColumns[i], catalog, tableName, c.columns[i],
          Decimal(i + 1), Decimal(Code(Meant(c, "ON UPDATE "))), Decimal(Code(Meant(c, "ON DELETE "))),
          c.constraint, Decimal(7)))
  }

  ghost predicate GoodTable(lines: seq<Line>) {
    forall i :: 0 <= i < |lines| ==> GoodLine(lines[i])
  }

  ghost function TableMeaning(lines: seq<Line>, tableName: string, catalog: string): seq<Row>
    requires GoodTable(lines)
  {
    if lines == [] then []
    else
      assert GoodLine(lines[0]);
      (if lines[0].Key? then ClauseMeaning(lines[0].clause, tableName, catalog) else [])
         + TableMeaning(lines[1..], tableName, catalog)
  }

  // ---------- splitting and trimming undo printing ----------

  lemma LinesOfJoin(first: string, rest: string)
    requires NoNewline(first)
    ensures Lines(first + ("\n" + rest)) == [first] + Lines(rest)
  {
    var s := first + ("\n" + rest);
    assert s[|first|..|first| + 1] == "\n";
    forall i: nat | i < |first| ensures !OccursAt(s, "\n", i) {
      assert s[i] == first[i];
    }
    FindIs(s, "\n", 0, |first|);
    assert s[..|first|] == first && s[|first| + 1..] == rest;
  }

  lemma LinesOfLast(s: string)
    requires NoNewline(s)
    ensures Lines(s) == [s]
  {
    FindFirst(s, "\n", 0);
    forall i: nat ensures !OccursAt(s, "\n", i) {
      assert i < |s| ==> s[i..i + 1][0] == s[i];
    }
  }

  lemma TrimPadded(w: string, t: string)
    requires AllSpace(w) && t != [] && !IsSpace(t[0]) && !IsSpace(t[|t| - 1])
    ensures Trim(w + t) == t
  {
    SkipsTo(w + t, 0, |w|);
    assert (w + t)[|w|..] == t;
  }

  // ---------- printed lines hold no newline ----------

  lemma {:induction false} DoubledNoNewline(n: string)
    requires NoNewline(n)
    ensures NoNewline(Doubled(n))
  {
    if n != [] { DoubledNoNewline(n[1..]); }
  }

  lemma QuotedNoNewline(n: string)
    requires NoNewline(n)
    ensures NoNewline(Quoted(n))
  {
    DoubledNoNewline(n);
  }

  lemma {:induction false} MoreNoNewline(names: seq<string>, gap: string)
    requires AllNoNewline(names) && Spaces(gap)
    ensures NoNewline(PrintMore(names, gap)) && PrintMore(names, gap)[|PrintMore(names, gap)| - 1] == ')'
    decreases |names|
  {
    if names != [] {
      QuotedNoNewline(names[0]);
      MoreNoNewline(names[1..], gap);
      hide Quoted;
    }
  }

  lemma ListNoNewline(names: seq<string>, gap: string)
    requires AllNoNewline(names) && Spaces(gap)
    ensures var s := PrintList(names, gap); NoNewline(s) && s != [] && s[|s| - 1] == ')'
  {
    if names != [] {
      QuotedNoNewline(names[0]);
      MoreNoNewline(names[1..], gap);
      hide Quoted;
    }
  }

  lemma ActionNoNewline(prefix: string, a: Option<Action>)
    requires IsPrefix(prefix)
    ensures var s := PrintAction(prefix, a); NoNewline(s) && (s != [] ==> !IsSpace(s[|s| - 1]))
  {
    if a.Some? {
      TextEnds(a.value);
      assert NoNewline(prefix);
      hide ActionText;
    }
  }

  lemma TextEnds(a: Action)
    ensures var t := ActionText(a); NoNewline(t) && t != [] && !IsSpace(t[|t| - 1])
  {
  }

  /** Not empty, without newline, and not ending in white space. */
  predicate OneLine(s: string) {
    NoNewline(s) && s != [] && !IsSpace(s[|s| - 1])
  }

  lemma OneLineAfter(x: string, y: string)
    requires NoNewline(x) && OneLine(y)
    ensures OneLine(x + y)
  {
  }

  lemma TailOneLine(c: Clause, end: string)
    requires AllNoNewline(c.refColumns) && Spaces(c.gap) && (end == "" || end == ",")
    ensures OneLine(ReferencedColumnsText(c, end))
  {
    ListNoNewline(c.refColumns, c.gap);
    ActionNoNewline("ON DELETE ", c.onDelete);
    ActionNoNewline("ON UPDATE ", c.onUpdate);
    hide PrintList, PrintAction;
  }

  lemma TableNoNewline(schema: string, table: string)
    requires NoNewline(schema) && NoNewline(table)
    ensures NoNewline(PrintTable(schema, table))
  {
    QuotedNoNewline(schema);
    QuotedNoNewline(table);
    hide Quoted;
  }

  /** A printed clause is one line that trimming leaves alone. */
  lemma ClauseOneLine(l: Line)
    requires GoodLine(l) && l.Key?
    ensures var s := PrintClause(l.clause, End(l.comma)); OneLine(s) && "CONSTRAINT" <= s
  {
    var c, end := l.clause, End(l.comma);
    TailOneLine(c, end);
    TableNoNewline(c.refSchema, c.refTable);
    ListNoNewline(c.columns, c.gap);
    QuotedNoNewline(c.constraint);
    hide Quoted, PrintList, PrintTable, ReferencedColumnsText, NoNewline, OneLine;
    assert NoNewline(" ") && NoNewline("REFERENCES") && NoNewline("FOREIGN KEY") && NoNewline("CONSTRAINT") by {
      KeywordsNoNewline();
    }
    OneLineAfter(PrintTable(c.refSchema, c.refTable), ReferencedColumnsText(c, end));
    OneLineAfter(" ", PrintTable(c.refSchema, c.refTable) + ReferencedColumnsText(c, end));
    OneLineAfter("REFERENCES", TableText(c, end));
    OneLineAfter(" ", "REFERENCES" + TableText(c, end));
    hide TableText;
    OneLineAfter(PrintList(c.columns, c.gap), ReferencesText(c, end));
    OneLineAfter(" ", PrintList(c.columns, c.gap) + ReferencesText(c, end));
    hide ReferencesText;
    OneLineAfter("FOREIGN KEY", ColumnsText(c, end));
    OneLineAfter(" ", "FOREIGN KEY" + ColumnsText(c, end));
    hide ColumnsText;
    OneLineAfter(Quoted(c.constraint), ForeignKeyText(c, end));
    OneLineAfter(" ", Quoted(c.constraint) + ForeignKeyText(c, end));
    hide ForeignKeyText;
    OneLineAfter("CONSTRAINT", NameText(c, end));
  }

  lemma KeywordsNoNewline()
    ensures NoNewline(" ") && NoNewline("REFERENCES") && NoNewline("FOREIGN KEY") && NoNewline("CONSTRAINT")
  {
  }

  // ---------- the round trip ----------

  lemma KeyLineRows(l: Line, tableName: string, catalog: string)
    requires GoodLine(l) && l.Key?
    ensures LineRows(Trim(PrintLine(l)), tableName, catalog) == Ok(ClauseMeaning(l.clause, tableName, catalog))
  {
    var c, end := l.clause, End(l.comma);
    var part := PrintClause(c, end);
    KeyLineTrimmed(l);
    assert WellFormed(c) && Tellable(c, "ON UPDATE ") && Tellable(c, "ON DELETE ");
    hide PrintClause, ParseClause, LastFound, Trim, Find, Tellable, GoodLine, PrintLine, Meant, Names;
    ParsesPrintedClause(c, end);
    RuleReadIff(c, end, "ON UPDATE ");
    RuleReadIff(c, end, "ON DELETE ");
    MeaningOfParsed(c, tableName, catalog);
  }

  lemma KeyLineTrimmed(l: Line)
    requires GoodLine(l) && l.Key?
    ensures Trim(PrintLine(l)) == PrintClause(l.clause, End(l.comma)) && IsKeyLine(Trim(PrintLine(l)))
  {
    ClauseOneLine(l);
    hide PrintClause;
    TrimPadded(l.indent, PrintClause(l.clause, End(l.comma)));
  }

  lemma MeaningOfParsed(c: Clause, tableName: string, catalog: string)
    requires |c.columns| == |c.refColumns|
    ensures var fk := ForeignKey(Identifier("", c.constraint), Names(c.columns),
                                 Identifier(c.refSchema, c.refTable), Names(c.refColumns));
            ClauseMeaning(c, tableName, catalog) ==
              ClauseRows(fk, Code(Meant(c, "ON UPDATE ")), Code(Meant(c, "ON DELETE ")), tableName, catalog)
  {
    hide Decimal, Meant, Code;
  }

  lemma NoNewlineJoin(x: string, y: string)
    requires NoNewline(x) && NoNewline(y)
    ensures NoNewline(x + y)
  {
  }

  /** Trimming cuts white space off both ends, all of it, and nothing else. */
  lemma TrimSplits(s: string) returns (front: string, back: string)
    ensures AllSpace(front) && AllSpace(back) && s == front + Trim(s) + back
    ensures Trim(s) != [] ==> !IsSpace(Trim(s)[0]) && !IsSpace(Trim(s)[|Trim(s)| - 1])
  {
    var k := SkipWhite(s, 0);
    front := s[..k];
    back := TrimRightSplits(s[k..]);
    assert s == front + s[k..];
  }

  lemma {:induction false} TrimRightSplits(s: string) returns (back: string)
    ensures AllSpace(back) && s == TrimRight(s) + back && |TrimRight(s)| <= |s|
    ensures TrimRight(s) != [] ==> TrimRight(s)[0] == s[0] && !IsSpace(TrimRight(s)[|TrimRight(s)| - 1])
  {
    if s != [] && IsSpace(s[|s| - 1]) {
      back := TrimRightSplits(s[..|s| - 1]);
      back := back + [s[|s| - 1]];
    } else {
      back := "";
    }
  }

  /** Behind white space, trimming leaves a beginning of the text. */
  lemma TrimIndented(w: string, t: string) returns (n: nat)
    requires AllSpace(w) && t != [] && !IsSpace(t[0])
    ensures n <= |t| && Trim(w + t) == t[..n]
  {
    SkipsTo(w + t, 0, |w|);
    assert (w + t)[|w|..] == t;
    var back := TrimRightSplits(t);
    n := |TrimRight(t)|;
    assert t[..n] == TrimRight(t);
  }

  /** The driver passes over every plain line. */
  lemma PlainSkipped(indent: string, l: PlainLine)
    requires AllSpace(indent) && Innocent(l)
    ensures !IsKeyLine(Trim(indent + PrintPlain(l)))
  {
    var s := PrintPlain(l);
    PlainFree(l);
    PlainStarts(l);
    hide PrintPlain, Innocent, Trim, IsKeyLine;
    var n := TrimIndented(indent, s);
    FreePrefix(s, n);
    KeyLineIff(s[..n]);
    hide *;
    NotConstraint(s, n);
  }

  lemma NotConstraint(s: string, n: nat)
    requires n <= |s| && (|s| >= 1 && s[0] == 'C' ==> |s| >= 2 && s[1] == 'R')
    ensures !(|s[..n]| >= 10 && s[..n][..10] == "CONSTRAINT")
    ensures !Contains(s[..n], FOREIGN_KEY) ==> !exists i: nat :: OccursAt(s[..n], "FOREIGN KEY", i)
  {
    assert n >= 10 ==> s[..n][..10][0] == s[0] && s[..n][..10][1] == s[1];
    assert FOREIGN_KEY == "FOREIGN KEY";
  }

  lemma LineRowsMeant(l: Line, tableName: string, catalog: string)
    requires GoodLine(l)
    ensures NoNewline(PrintLine(l))
    ensures var r := LineRows(Trim(PrintLine(l)), tableName, catalog);
      if l.Misread? then r == Err(LineError(l))
      else r == Ok(if l.Key? then ClauseMeaning(l.clause, tableName, catalog) else [])
  {
    if l.Key? {
      KeyLineNoNewline(l);
      KeyLineRows(l, tableName, catalog);
      hide PrintLine, LineRows, Trim, GoodLine;
    } else if l.Plain? {
      PlainSkipped(l.indent, l.line);
      NoNewlineJoin(l.indent, PrintPlain(l.line));
      hide Trim, IsKeyLine, PrintPlain, Innocent, NoNewline;
    } else {
      hide Trim, ParseClause;
    }
  }

  lemma KeyLineNoNewline(l: Line)
    requires GoodLine(l) && l.Key?
    ensures NoNewline(PrintLine(l))
  {
    ClauseOneLine(l);
    hide PrintClause, IsKeyLine;
  }

  /** All rows that are read out of a printed table. */
  function PrintedRows(lines: seq<Line>, tableName: string, catalog: string): Result<seq<Row>>
    requires lines != []
  {
    AllRows(Lines(PrintTableDef(lines)), tableName, catalog)
  }

  /** Line `i` is the first that cannot be parsed. */
  ghost predicate FirstMisread(lines: seq<Line>, i: nat) {
    i < |lines| && lines[i].Misread? && forall j :: 0 <= j < i ==> !lines[j].Misread?
  }

  ghost function LineError(l: Line): Failure
    requires GoodLine(l) && l.Misread?
  {
    ParseClause(Trim(l.text)).error
  }

  /** The table's rows are those of its first line and then those of the others. */
  lemma TableSplits(lines: seq<Line>, tableName: string, catalog: string)
    requires lines != [] && GoodTable(lines)
    ensures PrintedRows(lines, tableName, catalog) ==
      match LineRows(Trim(PrintLine(lines[0])), tableName, catalog)
      case Err(e) => Err(e)
      case Ok(rows) => Prepend(rows, if |lines| == 1 then Ok([]) else PrintedRows(lines[1..], tableName, catalog))
  {
    var first := PrintLine(lines[0]);
    LineRowsMeant(lines[0], tableName, catalog);
    hide Trim, LineRows, Lines, GoodLine, PrintLine, ClauseMeaning, NoNewline, LineError, AllRows;
    if |lines| == 1 {
      LinesOfLast(first);
      FirstLine([first], tableName, catalog);
      NoLines(tableName, catalog);
      assert [first][1..] == [];
    } else {
      var rest := Lines(PrintTableDef(lines[1..]));
      LinesOfJoin(first, PrintTableDef(lines[1..]));
      FirstLine([first] + rest, tableName, catalog);
      assert ([first] + rest)[1..] == rest;
    }
  }

  lemma NoLines(tableName: string, catalog: string)
    ensures AllRows([], tableName, catalog) == Ok([])
  {
  }

  lemma LaterMisread(lines: seq<Line>, i: nat)
    requires GoodTable(lines) && FirstMisread(lines, i) && i > 0
    ensures GoodTable(lines[1..]) && FirstMisread(lines[1..], i - 1) && lines[1..][i - 1] == lines[i]
  {
    hide GoodLine;
    assert forall j :: 0 <= j < i - 1 ==> lines[1..][j] == lines[j + 1];
  }

  /** The first line that cannot be parsed fails the whole table, with its error; */
  lemma {:induction false} MisreadFails(lines: seq<Line>, i: nat, tableName: string, catalog: string)
    requires GoodTable(lines) && FirstMisread(lines, i)
    ensures GoodLine(lines[i]) && PrintedRows(lines, tableName, catalog) == Err(LineError(lines[i]))
    decreases i
  {
    assert GoodLine(lines[i]) && GoodLine(lines[0]);
    assert i > 0 ==> !lines[0].Misread?;
    assert lines[i].Misread?;
    LineRowsMeant(lines[0], tableName, catalog);
    TableSplits(lines, tableName, catalog);
    if i > 0 {
      LaterMisread(lines, i);
      hide *;
      MisreadFails(lines[1..], i - 1, tableName, catalog);
    } else {
      hide *;
    }
  }

  /** without such a line the rows are those of all clauses, one after the other. */
  lemma {:induction false} PrintedTableRows(lines: seq<Line>, tableName: string, catalog: string)
    requires lines != [] && GoodTable(lines)
    requires forall i :: 0 <= i < |lines| ==> !lines[i].Misread?
    ensures PrintedRows(lines, tableName, catalog) == Ok(TableMeaning(lines, tableName, catalog))
    decreases |lines|
  {
    LineRowsMeant(lines[0], tableName, catalog);
    TableSplits(lines, tableName, catalog);
    hide Trim, LineRows, GoodLine, PrintLine, ClauseMeaning, NoNewline, LineError, PrintedRows;
    if |lines| == 1 {
      assert TableMeaning(lines[1..], tableName, catalog) == [];
    } else {
      PrintedTableRows(lines[1..], tableName, catalog);
    }
  }

  /** A table of foreign keys among plain lines, as the server prints it: its imported keys are
      the clauses' rows, and nothing else. */
  lemma OrdinaryTableRows(lines: seq<Line>, tableName: string, catalog: string)
    requires lines != [] && GoodTable(lines)
    requires forall i :: 0 <= i < |lines| ==> lines[i].Key? || lines[i].Plain?
    ensures PrintedRows(lines, tableName, catalog) == Ok(TableMeaning(lines, tableName, catalog))
  {
    hide GoodTable, PrintedRows, TableMeaning;
    PrintedTableRows(lines, tableName, catalog);
  }

  /** The commonest of those lines. */
  lemma PrimaryKeySkipped(tableName: string, catalog: string)
    ensures LineRows(Trim("  PRIMARY KEY (`id`),"), tableName, catalog) == Ok([])
  {
    var l := Primary(["id"], "", ",");
    IdText();
    assert "  " + PrintPlain(l) == "  PRIMARY KEY (`id`),";
    NoStartFree("id");
    NoStartFree(",");
    hide Contains, PrintList;
    assert Innocent(l);
    hide PrintPlain, Innocent, Trim, IsKeyLine;
    PlainSkipped("  ", l);
  }

  lemma IdText()
    ensures PrintList(["id"], "") == "(`id`)"
  {
    assert "id"[1..] == "d" && "d"[1..] == "" && Doubled("id") == "id";
    assert Quoted("id") == "`id`" && PrintMore([], "") == ")" && ["id"][1..] == [];
  }

  // ---------- check constraints ----------

  function CheckTail(condition: string, comma: bool): string {
    " CHECK (" + (condition + (")" + End(comma)))
  }

  /** A named check constraint as the server prints it. */
  function PrintCheck(name: string, condition: string, comma: bool): string {
    "CONSTRAINT" + (" " + (Quoted(name) + CheckTail(condition, comma)))
  }

  /** The driver takes a named check constraint for a foreign key and cannot parse it. */
  lemma CheckMisread(indent: string, name: string, condition: string, comma: bool)
    requires AllSpace(indent) && NoNewline(indent) && NoNewline(name) && NoNewline(condition)
    ensures var l := Misread(indent + PrintCheck(name, condition, comma));
      GoodLine(l) && LineError(l).ParseError?
  {
    var part := PrintCheck(name, condition, comma);
    CheckOneLine(name, condition, comma);
    CheckFails(name, condition, comma);
    hide PrintCheck, ParseClause, NoNewline;
    TrimPadded(indent, part);
    assert NoNewline(indent + part) by { OneLineAfter(indent, part); }
    hide Trim, IsKeyLine;
    assert IsKeyLine(part) by { KeyLineStarts(part); }
  }

  lemma KeyLineStarts(part: string)
    requires "CONSTRAINT" <= part
    ensures IsKeyLine(part)
  {
  }

  lemma CheckOneLine(name: string, condition: string, comma: bool)
    requires NoNewline(name) && NoNewline(condition)
    ensures var s := PrintCheck(name, condition, comma);
      OneLine(s) && "CONSTRAINT" <= s && !IsSpace(s[0])
  {
    QuotedNoNewline(name);
    CheckLiterals(comma);
    KeywordsNoNewline();
    ConstraintStarts(" " + (Quoted(name) + CheckTail(condition, comma)));
    hide Quoted, OneLine, NoNewline, End, IsSpace;
    OneLineAfter(condition, ")" + End(comma));
    OneLineAfter(" CHECK (", condition + (")" + End(comma)));
    OneLineAfter(Quoted(name), CheckTail(condition, comma));
    OneLineAfter(" ", Quoted(name) + CheckTail(condition, comma));
    OneLineAfter("CONSTRAINT", " " + (Quoted(name) + CheckTail(condition, comma)));
  }

  lemma CheckLiterals(comma: bool)
    ensures OneLine(")" + End(comma)) && NoNewline(" CHECK (")
  {
  }

  lemma ConstraintStarts(rest: string)
    ensures var s := "CONSTRAINT" + rest; "CONSTRAINT" <= s && s != [] && !IsSpace(s[0])
  {
  }

  lemma CheckFails(name: string, condition: string, comma: bool)
    ensures var r := ParseClause(PrintCheck(name, condition, comma)); r.Err? && r.error.ParseError?
  {
    var part, tail := PrintCheck(name, condition, comma), CheckTail(condition, comma);
    var named := " " + (Quoted(name) + tail);
    CheckTailStarts(condition, comma);
    CheckHead(name, condition, comma);
    hide Quoted, ParseClause, CheckTail, PrintCheck, ParseIdentifier, SkipKeyword, OccursAt;
    ReadsKeyword(part, 0, "", "CONSTRAINT", named);
    ForeignKeys.ReadsName(part, 10, " ", name, tail, NO_IDENTIFIER);
    var q := 10 + 1 + |Quoted(name)|;
    NoForeignKey(part, q, condition, comma);
    hide *;
    ClauseFails(part, 10, q, Identifier("", name));
  }

  lemma ClauseFails(part: string, p: nat, q: nat, id: Identifier)
    requires SkipKeyword(part, 0, "CONSTRAINT") == Parsed(p, ())
    requires ParseIdentifier(part, p, NO_IDENTIFIER) == Parsed(q, id)
    requires SkipKeyword(part, q, "FOREIGN KEY").Broken?
    ensures ParseClause(part) == Err(SkipKeyword(part, q, "FOREIGN KEY").error)
  {
    hide SkipKeyword, ParseIdentifier, ParseIdentifierList;
  }

  lemma CheckHead(name: string, condition: string, comma: bool)
    ensures var part := PrintCheck(name, condition, comma);
      OccursAt(part, "" + ("CONSTRAINT" + (" " + (Quoted(name) + CheckTail(condition, comma)))), 0)
  {
    hide Quoted, CheckTail;
    var part := PrintCheck(name, condition, comma);
    assert "" + part == part && part[0..|part|] == part;
  }

  lemma CheckTailStarts(condition: string, comma: bool)
    ensures var tail := CheckTail(condition, comma);
      |tail| >= 2 && tail[0] == ' ' && tail[1] == 'C' && tail == " " + tail[1..]
  {
  }

  lemma NoForeignKey(part: string, q: nat, condition: string, comma: bool)
    requires OccursAt(part, CheckTail(condition, comma), q)
    ensures var r := SkipKeyword(part, q, "FOREIGN KEY"); r.Broken? && r.error.ParseError?
  {
    var tail := CheckTail(condition, comma);
    CheckTailStarts(condition, comma);
    hide CheckTail;
    SpacesThen(part, q, " ", tail[1..]);
  }
}
