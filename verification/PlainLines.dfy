/** The lines of `SHOW CREATE TABLE` that are no foreign keys: head, columns, keys and the closing
    line. `getImportedKeys` passes over them (src/MariaDbDatabaseMetaData.cpp:233-238). */
module PlainLines {
  import opened Strings
  import opened Replace
  import opened Containment
  import opened ForeignKeys

  const FOREIGN_KEY := "FOREIGN KEY"

  datatype IndexKind = Ordinary | Unique | Fulltext | Spatial

  /** `definition` and `options` are whatever the server puts behind, comments and commas
      included. */
  datatype PlainLine =
    | Head(table: string)
    | Column(name: string, definition: string)
    | Primary(columns: seq<string>, gap: string, options: string)
    | Index(kind: IndexKind, name: string, columns: seq<string>, gap: string, options: string)
    | Closing(options: string)

  function KindText(kind: IndexKind): string {
    match kind
    case Ordinary => "KEY "
    case Unique => "UNIQUE KEY "
    case Fulltext => "FULLTEXT KEY "
    case Spatial => "SPATIAL KEY "
  }

  function PrintPlain(l: PlainLine): string {
    match l
    case Head(table) => "CREATE TABLE " + (Quoted(table) + " (")
    case Column(name, definition) => "" + (Quoted(name) + (" " + definition))
    case Primary(columns, gap, options) => "PRIMARY KEY " + (PrintList(columns, gap) + options)
    case Index(kind, name, columns, gap, options) =>
      KindText(kind) + (Quoted(name) + (" " + (PrintList(columns, gap) + options)))
    case Closing(options) => ")" + options
  }

  ghost predicate NoneContains(names: seq<string>) {
    forall i :: 0 <= i < |names| ==> !Contains(names[i], FOREIGN_KEY)
  }

  /** No name, definition or comment holds the text that is searched for. */
  ghost predicate Innocent(l: PlainLine) {
    match l
    case Head(table) => !Contains(table, FOREIGN_KEY)
    case Column(name, definition) => !Contains(name, FOREIGN_KEY) && !Contains(definition, FOREIGN_KEY)
    case Primary(columns, gap, options) =>
      NoneContains(columns) && Spaces(gap) && !Contains(options, FOREIGN_KEY)
    case Index(_, name, columns, gap, options) =>
      !Contains(name, FOREIGN_KEY) && NoneContains(columns) && Spaces(gap) && !Contains(options, FOREIGN_KEY)
    case Closing(options) => !Contains(options, FOREIGN_KEY)
  }

  /** The search text cannot begin anywhere in here. */
  predicate NoStart(text: string) {
    forall i :: 0 <= i < |text| && text[i] == 'F' ==> i + 1 < |text| && text[i + 1] != 'O'
  }

  lemma StartsWithFo(text: string, i: nat)
    requires OccursAt(text, FOREIGN_KEY, i)
    ensures i + 1 < |text| && text[i] == 'F' && text[i + 1] == 'O'
  {
    assert text[i..i + |FOREIGN_KEY|][0] == text[i] && text[i..i + |FOREIGN_KEY|][1] == text[i + 1];
  }

  lemma NoStartFree(text: string)
    requires NoStart(text)
    ensures !Contains(text, FOREIGN_KEY)
  {
    forall i: nat ensures !OccursAt(text, FOREIGN_KEY, i) {
      if OccursAt(text, FOREIGN_KEY, i) { StartsWithFo(text, i); }
    }
  }

  /** Such a text in front of another makes no occurrence. */
  lemma FreeBehind(lit: string, rest: string)
    requires NoStart(lit) && !Contains(rest, FOREIGN_KEY)
    ensures !Contains(lit + rest, FOREIGN_KEY)
  {
    forall i: nat ensures !OccursAt(lit + rest, FOREIGN_KEY, i) {
      if OccursAt(lit + rest, FOREIGN_KEY, i) {
        StartsWithFo(lit + rest, i);
        assert i >= |lit|;
        assert rest[i - |lit|..i - |lit| + |FOREIGN_KEY|] == (lit + rest)[i..i + |FOREIGN_KEY|];
        assert OccursAt(rest, FOREIGN_KEY, i - |lit|);
      }
    }
  }

  lemma FreeName(lit: string, n: string, rest: string)
    requires NoStart(lit) && !Contains(n, FOREIGN_KEY) && !Contains(rest, FOREIGN_KEY)
    ensures !Contains(lit + (Quoted(n) + rest), FOREIGN_KEY)
  {
    NoStartFree(lit);
    assert TickFree(FOREIGN_KEY);
    hide Contains, Quoted;
    SplitAtName(lit, n, rest, FOREIGN_KEY);
  }

  lemma {:induction false} FreeMore(names: seq<string>, gap: string, rest: string)
    requires NoneContains(names) && Spaces(gap) && !Contains(rest, FOREIGN_KEY)
    ensures !Contains(PrintMore(names, gap) + rest, FOREIGN_KEY)
    decreases |names|
  {
    if names == [] {
      FreeBehind(")", rest);
    } else {
      var n, more := names[0], PrintMore(names[1..], gap);
      Regroup4(",", gap, Quoted(n), more, rest);
      Regroup2(",", gap, Quoted(n) + (more + rest));
      assert NoStart("," + gap) && NoneContains(names[1..]);
      hide Quoted, Contains, PrintMore;
      FreeMore(names[1..], gap, rest);
      FreeName("," + gap, n, more + rest);
    }
  }

  lemma FreeList(lit: string, names: seq<string>, gap: string, rest: string)
    requires NoStart(lit + "(") && NoneContains(names) && Spaces(gap) && !Contains(rest, FOREIGN_KEY)
    ensures !Contains(lit + (PrintList(names, gap) + rest), FOREIGN_KEY)
  {
    if names == [] {
      Regroup2("(", ")", rest);
      assert "(" + ")" == "()";
      Regroup2(lit, "(", ")" + rest);
      FreeBehind(")", rest);
      FreeBehind(lit + "(", ")" + rest);
    } else {
      var n, more := names[0], PrintMore(names[1..], gap);
      Regroup3("(", Quoted(n), more, rest);
      Regroup2(lit, "(", Quoted(n) + (more + rest));
      assert NoneContains(names[1..]);
      hide Quoted, Contains, PrintMore;
      FreeMore(names[1..], gap, rest);
      FreeName(lit + "(", n, more + rest);
    }
  }

  lemma Literals(kind: IndexKind)
    ensures NoStart("CREATE TABLE ") && NoStart(" (") && NoStart("") && NoStart(" ") && NoStart(")")
    ensures NoStart("PRIMARY KEY " + "(") && NoStart(" " + "(") && NoStart(KindText(kind))
  {
  }

  /** A plain line of innocent parts does not hold the search text, */
  lemma PlainFree(l: PlainLine)
    requires Innocent(l)
    ensures !Contains(PrintPlain(l), FOREIGN_KEY)
  {
    Literals(if l.Index? then l.kind else Ordinary);
    hide Contains, Quoted, PrintList, NoStart, KindText;
    match l
    case Head(table) =>
      NoStartFree(" (");
      FreeName("CREATE TABLE ", table, " (");
    case Column(name, definition) =>
      FreeBehind(" ", definition);
      FreeName("", name, " " + definition);
    case Primary(columns, gap, options) => FreeList("PRIMARY KEY ", columns, gap, options);
    case Index(kind, name, columns, gap, options) =>
      FreeList(" ", columns, gap, options);
      FreeName(KindText(kind), name, " " + (PrintList(columns, gap) + options));
    case Closing(options) => FreeBehind(")", options);
  }

  /** and it does not begin as a key does. */
  lemma PlainStarts(l: PlainLine)
    ensures var s := PrintPlain(l);
      |s| >= 1 && !IsSpace(s[0]) && (s[0] == 'C' ==> |s| >= 2 && s[1] == 'R')
  {
    hide PrintList, Doubled;
  }

  /** A beginning of a text holds no more than the text. */
  lemma FreePrefix(text: string, n: nat)
    requires n <= |text| && !Contains(text, FOREIGN_KEY)
    ensures !Contains(text[..n], FOREIGN_KEY)
  {
    forall i: nat ensures !OccursAt(text[..n], FOREIGN_KEY, i) {
      if OccursAt(text[..n], FOREIGN_KEY, i) {
        assert text[i..i + |FOREIGN_KEY|] == text[..n][i..i + |FOREIGN_KEY|];
        assert OccursAt(text, FOREIGN_KEY, i);
      }
    }
  }
}
