/** The grammar of a foreign-key clause, and the proof that the parser accepts exactly that
    (src/MariaDbDatabaseMetaData.cpp:128-168 and 240-257). */
module ClauseGrammar {
  import opened Strings
  import opened Replace
  import opened Identifiers
  import opened ForeignKeys

  /** The keyword stands at `from`, behind white space, and ends at `to`. */
  ghost predicate KeywordAt(part: string, from: nat, keyword: string, to: nat) {
    OccursAt(part, keyword, SkipWhite(part, from)) && to == SkipWhite(part, from) + |keyword|
  }

  /** What stands between the parentheses: names and commas, in any order. */
  datatype Item = Comma | Name(id: Identifier)

  function NamesOf(items: seq<Item>): seq<Identifier> {
    if items == [] then []
    else (if items[0].Name? then [items[0].id] else []) + NamesOf(items[1..])
  }

  ghost predicate ItemAt(part: string, from: nat, item: Item, to: nat) {
    match item
    case Comma => KeywordAt(part, from, ",", to)
    case Name(id) => Reads(part, SkipWhite(part, from), to, NO_IDENTIFIER, id)
  }

  ghost predicate ItemsAt(part: string, from: nat, items: seq<Item>, to: nat)
    decreases |items|
  {
    if items == [] then KeywordAt(part, from, ")", to)
    else exists mid: nat :: ItemAt(part, from, items[0], mid) && ItemsAt(part, mid, items[1..], to)
  }

  ghost predicate ListAt(part: string, from: nat, items: seq<Item>, to: nat) {
    exists open: nat :: KeywordAt(part, from, "(", open) && ItemsAt(part, open, items, to)
  }

  /** The positions between the parts of a clause. */
  datatype Cuts = Cuts(
    constraint: nat, name: nat, foreignKey: nat, columns: nat, references: nat, table: nat, end: nat)

  ghost predicate ClauseAt(part: string, at: Cuts, fk: ForeignKey, columns: seq<Item>, refColumns: seq<Item>) {
    && KeywordAt(part, 0, "CONSTRAINT", at.constraint)
    && Reads(part, at.constraint, at.name, NO_IDENTIFIER, fk.constraint)
    && KeywordAt(part, at.name, "FOREIGN KEY", at.foreignKey)
    && ListAt(part, at.foreignKey, columns, at.columns) && NamesOf(columns) == fk.columns
    && KeywordAt(part, at.columns, "REFERENCES", at.references)
    && Reads(part, at.references, at.table, NO_IDENTIFIER, fk.table)
    && ListAt(part, at.table, refColumns, at.end) && NamesOf(refColumns) == fk.refColumns
    && |fk.columns| == |fk.refColumns|
  }

  // ---------- keywords ----------

  lemma KeywordExactly(part: string, from: nat, keyword: string, to: nat)
    ensures SkipKeyword(part, from, keyword) == Parsed(to, ()) <==> KeywordAt(part, from, keyword, to)
  {
    MatchesKeyword(part, SkipWhite(part, from), keyword, 0);
    assert keyword[0..] == keyword;
  }

  /** A keyword that is not there: the error names the first character that differs, and where
      the text ends before one does, the failure is that of `at()`. */
  lemma KeywordFails(part: string, from: nat, keyword: string) returns (k: nat)
    requires SkipKeyword(part, from, keyword).Broken?
    ensures var start := SkipWhite(part, from);
      && k < |keyword| && OccursAt(part, keyword[..k], start)
      && if start + k == |part| then SkipKeyword(part, from, keyword) == Broken(OutOfRange)
         else part[start + k] != keyword[k] && SkipKeyword(part, from, keyword) == Broken(ParseError(start + k))
  {
    var start := SkipWhite(part, from);
    assert part[start..start] == keyword[..0];
    k := MatchFails(part, start, keyword, 0);
  }

  lemma {:induction false} MatchFails(part: string, start: nat, keyword: string, i: nat) returns (k: nat)
    requires i <= |keyword| && OccursAt(part, keyword[..i], start)
    requires MatchFrom(part, start + i, keyword, i).Broken?
    ensures k < |keyword| && OccursAt(part, keyword[..k], start)
    ensures if start + k == |part| then MatchFrom(part, start + i, keyword, i) == Broken(OutOfRange)
            else part[start + k] != keyword[k] && MatchFrom(part, start + i, keyword, i) == Broken(ParseError(start + k))
    decreases |keyword| - i
  {
    k := i;
    if start + i < |part| && part[start + i] == keyword[i] {
      assert keyword[..i + 1] == keyword[..i] + [keyword[i]];
      OccursSplit(part, keyword[..i], [keyword[i]], start);
      assert part[start + i..start + i + 1] == [keyword[i]];
      k := MatchFails(part, start, keyword, i + 1);
    }
  }

  // ---------- lists ----------

  /** One turn of the loop. */
  lemma ListTurn(part: string, pos: nat, startPos: nat, list: seq<Identifier>)
    ensures var p := SkipWhite(part, pos); var r := ListLoop(part, pos, startPos, list);
      && (p >= |part| ==> r == Broken(OutOfRange))
      && (p < |part| && part[p] == ')' ==> r == Parsed(p + 1, list))
      && (p < |part| && part[p] == ',' ==> r == ListLoop(part, p + 1, startPos, list))
      && (p < |part| && part[p] == TICK ==>
            var one := ParseIdentifier(part, p, NO_IDENTIFIER);
            r == if one.Broken? then Broken(one.error) else ListLoop(part, one.pos, startPos, list + [one.value]))
      && (p < |part| && part[p] != ')' && part[p] != ',' && part[p] != TICK ==> r == Broken(ParseError(startPos)))
  {
    hide ParseIdentifier;
  }

  lemma CharacterAt(part: string, from: nat, c: char, to: nat)
    ensures KeywordAt(part, from, [c], to) <==>
      var p := SkipWhite(part, from); p < |part| && part[p] == c && to == p + 1
  {
    var p := SkipWhite(part, from);
    if p < |part| { assert part[p..p + 1] == [part[p]]; }
    if KeywordAt(part, from, [c], to) { assert part[p..p + 1][0] == c; }
  }

  lemma ReadsStarts(part: string, from: nat, to: nat, id: Identifier)
    requires Reads(part, SkipWhite(part, from), to, NO_IDENTIFIER, id)
    ensures SkipWhite(part, from) < |part| && part[SkipWhite(part, from)] == TICK
  {
    var p := SkipWhite(part, from);
    ParsesExactly(part, p, to, NO_IDENTIFIER, id);
    SkipsTo(part, p, p);
  }

  lemma NamesOfCons(item: Item, items: seq<Item>)
    ensures NamesOf([item] + items) == (if item.Name? then [item.id] else []) + NamesOf(items)
    ensures ([item] + items)[1..] == items
  {
    assert ([item] + items)[1..] == items;
  }

  /** Completeness: what the grammar reads, the loop collects. */
  lemma {:induction false} ItemsParse(part: string, from: nat, startPos: nat, list: seq<Identifier>, items: seq<Item>, to: nat)
    requires ItemsAt(part, from, items, to)
    ensures ListLoop(part, from, startPos, list) == Parsed(to, list + NamesOf(items))
    decreases |items|
  {
    hide ListLoop, Reads, KeywordAt, ItemAt;
    if items == [] {
      ListTurn(part, from, startPos, list);
      CharacterAt(part, from, ')', to);
      assert list + NamesOf(items) == list;
    } else {
      var mid: nat :| ItemAt(part, from, items[0], mid) && ItemsAt(part, mid, items[1..], to);
      var more := list + if items[0].Name? then [items[0].id] else [];
      assert list + NamesOf(items) == more + NamesOf(items[1..]);
      hide NamesOf, ItemsAt;
      ItemParses(part, from, items[0], mid, startPos, list);
      ItemsParse(part, mid, startPos, more, items[1..], to);
    }
  }

  lemma ItemParses(part: string, from: nat, item: Item, to: nat, startPos: nat, list: seq<Identifier>)
    requires ItemAt(part, from, item, to)
    ensures ListLoop(part, from, startPos, list)
         == ListLoop(part, to, startPos, list + if item.Name? then [item.id] else [])
  {
    ListTurn(part, from, startPos, list);
    hide ParseIdentifier, Reads, ListLoop, KeywordAt;
    if item.Comma? {
      CharacterAt(part, from, ',', to);
      assert list + [] == list;
    } else {
      ReadsStarts(part, from, to, item.id);
      ParsesExactly(part, SkipWhite(part, from), to, NO_IDENTIFIER, item.id);
    }
  }

  /** Soundness: what the loop collects stood there. */
  lemma {:induction false} ItemsFound(part: string, from: nat, startPos: nat, list: seq<Identifier>) returns (items: seq<Item>, to: nat)
    requires ListLoop(part, from, startPos, list).Parsed?
    ensures ItemsAt(part, from, items, to)
    ensures ListLoop(part, from, startPos, list) == Parsed(to, list + NamesOf(items))
    decreases |part| - from
  {
    ListTurn(part, from, startPos, list);
    hide ListLoop, ParseIdentifier, Reads;
    var p := SkipWhite(part, from);
    if part[p] == ')' {
      items, to := [], p + 1;
      CharacterAt(part, from, ')', to);
      assert list + NamesOf(items) == list;
    } else {
      var item, mid := ItemFound(part, from, startPos, list);
      var more := list + if item.Name? then [item.id] else [];
      var rest;
      rest, to := ItemsFound(part, mid, startPos, more);
      items := [item] + rest;
      NamesOfCons(item, rest);
      hide NamesOf, ItemAt, KeywordAt;
      assert list + NamesOf(items) == more + NamesOf(rest);
    }
  }

  lemma ItemFound(part: string, from: nat, startPos: nat, list: seq<Identifier>) returns (item: Item, to: nat)
    requires ListLoop(part, from, startPos, list).Parsed?
    requires SkipWhite(part, from) < |part| && part[SkipWhite(part, from)] != ')'
    ensures ItemAt(part, from, item, to) && from < to <= |part|
    ensures ListLoop(part, from, startPos, list)
         == ListLoop(part, to, startPos, list + if item.Name? then [item.id] else [])
  {
    ListTurn(part, from, startPos, list);
    hide ListLoop, Reads;
    var p := SkipWhite(part, from);
    if part[p] == ',' {
      item, to := Comma, p + 1;
      CharacterAt(part, from, ',', to);
      assert list + [] == list;
    } else {
      var one := ParseIdentifier(part, p, NO_IDENTIFIER);
      item, to := Name(one.value), one.pos;
      ParsesExactly(part, p, to, NO_IDENTIFIER, one.value);
    }
  }

  /** The list parser accepts exactly the lists of the grammar: an opening parenthesis, names and
      commas in any order, a closing one. Its result is the names. */
  lemma ListParsesExactly(part: string, from: nat, to: nat, ids: seq<Identifier>)
    ensures ParseIdentifierList(part, from) == Parsed(to, ids) <==>
      exists items :: ListAt(part, from, items, to) && NamesOf(items) == ids
  {
    var open := SkipWhite(part, from) + 1;
    CharacterAt(part, from, '(', open);
    hide ListLoop, ItemsAt, NamesOf;
    if ParseIdentifierList(part, from) == Parsed(to, ids) {
      var items, end := ItemsFound(part, open, from, []);
      assert [] + NamesOf(items) == NamesOf(items);
      assert ListAt(part, from, items, to) && NamesOf(items) == ids;
    }
    if items :| ListAt(part, from, items, to) && NamesOf(items) == ids {
      var start: nat :| KeywordAt(part, from, "(", start) && ItemsAt(part, start, items, to);
      ItemsParse(part, open, from, [], items, to);
      assert [] + NamesOf(items) == NamesOf(items);
    }
  }

  // ---------- clauses ----------

  /** The clause parser accepts exactly the clauses of the grammar, with the grammar's names, and
      no others: any keyword, name, list or equal number of columns that is missing fails it. */
  lemma ClauseParsesExactly(part: string, fk: ForeignKey)
    ensures ParseClause(part) == Ok(fk) <==>
      exists at, columns, refColumns :: ClauseAt(part, at, fk, columns, refColumns)
  {
    hide *;
    if ParseClause(part) == Ok(fk) {
      var at, columns, refColumns := ClauseFound(part, fk);
    }
    if at, columns, refColumns :| ClauseAt(part, at, fk, columns, refColumns) {
      ClauseParses(part, at, fk, columns, refColumns);
    }
  }

  lemma ClauseParses(part: string, at: Cuts, fk: ForeignKey, columns: seq<Item>, refColumns: seq<Item>)
    requires ClauseAt(part, at, fk, columns, refColumns)
    ensures ParseClause(part) == Ok(fk)
  {
    hide ParseClause, KeywordAt, Reads, ListAt, NamesOf, SkipKeyword, ParseIdentifier, ParseIdentifierList;
    KeywordExactly(part, 0, "CONSTRAINT", at.constraint);
    ParsesExactly(part, at.constraint, at.name, NO_IDENTIFIER, fk.constraint);
    KeywordExactly(part, at.name, "FOREIGN KEY", at.foreignKey);
    ListParsesExactly(part, at.foreignKey, at.columns, fk.columns);
    KeywordExactly(part, at.columns, "REFERENCES", at.references);
    ParsesExactly(part, at.references, at.table, NO_IDENTIFIER, fk.table);
    ListParsesExactly(part, at.table, at.end, fk.refColumns);
    ClauseFromParts(part, at.constraint, at.name, at.foreignKey, at.columns, at.references, at.table, at.end, fk);
  }

  lemma UnitValue(r: Parsed<()>)
    requires r.Parsed?
    ensures r == Parsed(r.pos, ())
  {
    assert r.value == ();
  }

  /** The steps a success went through. */
  lemma StepsOf(part: string, fk: ForeignKey) returns (at: Cuts)
    requires ParseClause(part) == Ok(fk)
    ensures SkipKeyword(part, 0, "CONSTRAINT") == Parsed(at.constraint, ())
    ensures ParseIdentifier(part, at.constraint, NO_IDENTIFIER) == Parsed(at.name, fk.constraint)
    ensures SkipKeyword(part, at.name, "FOREIGN KEY") == Parsed(at.foreignKey, ())
    ensures ParseIdentifierList(part, at.foreignKey) == Parsed(at.columns, fk.columns)
    ensures SkipKeyword(part, at.columns, "REFERENCES") == Parsed(at.references, ())
    ensures ParseIdentifier(part, at.references, NO_IDENTIFIER) == Parsed(at.table, fk.table)
    ensures ParseIdentifierList(part, at.table) == Parsed(at.end, fk.refColumns)
    ensures |fk.columns| == |fk.refColumns|
  {
    hide SkipKeyword, ParseIdentifier, ParseIdentifierList;
    UnitValue(SkipKeyword(part, 0, "CONSTRAINT"));
    var p1 := SkipKeyword(part, 0, "CONSTRAINT").pos;
    var p2 := ParseIdentifier(part, p1, NO_IDENTIFIER).pos;
    UnitValue(SkipKeyword(part, p2, "FOREIGN KEY"));
    var p3 := SkipKeyword(part, p2, "FOREIGN KEY").pos;
    var p4 := ParseIdentifierList(part, p3).pos;
    UnitValue(SkipKeyword(part, p4, "REFERENCES"));
    var p5 := SkipKeyword(part, p4, "REFERENCES").pos;
    var p6 := ParseIdentifier(part, p5, NO_IDENTIFIER).pos;
    at := Cuts(p1, p2, p3, p4, p5, p6, ParseIdentifierList(part, p6).pos);
  }

  lemma ClauseFound(part: string, fk: ForeignKey) returns (at: Cuts, columns: seq<Item>, refColumns: seq<Item>)
    requires ParseClause(part) == Ok(fk)
    ensures ClauseAt(part, at, fk, columns, refColumns)
  {
    hide ParseClause, KeywordAt, Reads, ListAt, NamesOf, SkipKeyword, ParseIdentifier, ParseIdentifierList;
    at := StepsOf(part, fk);
    KeywordExactly(part, 0, "CONSTRAINT", at.constraint);
    ParsesExactly(part, at.constraint, at.name, NO_IDENTIFIER, fk.constraint);
    KeywordExactly(part, at.name, "FOREIGN KEY", at.foreignKey);
    ListParsesExactly(part, at.foreignKey, at.columns, fk.columns);
    KeywordExactly(part, at.columns, "REFERENCES", at.references);
    ParsesExactly(part, at.references, at.table, NO_IDENTIFIER, fk.table);
    ListParsesExactly(part, at.table, at.end, fk.refColumns);
    columns :| ListAt(part, at.foreignKey, columns, at.columns) && NamesOf(columns) == fk.columns;
    refColumns :| ListAt(part, at.table, refColumns, at.end) && NamesOf(refColumns) == fk.refColumns;
  }
}
