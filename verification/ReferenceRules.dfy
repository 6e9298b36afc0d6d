/** The referential actions of a clause. `getImportedKeys` does not parse them: it searches the
    whole line for each action text (src/MariaDbDatabaseMetaData.cpp:170-200 and 258-268), so a
    name may be mistaken for one. This module says exactly when that changes the result. */
module ReferenceRules {
  import opened Strings
  import opened Replace
  import opened Containment
  import opened ForeignKeys

  // ---------- the search ----------

  /** `getImportedKeyAction`, with the codes of `DatabaseMetaData`; `None` is its exception. */
  function GetImportedKeyAction(actionKey: string): Option<nat> {
    if actionKey == "" then Some(1)
    else if actionKey == "NO ACTION" then Some(3)
    else if actionKey == "CASCADE" then Some(0)
    else if actionKey == "SET NULL" then Some(2)
    else if actionKey == "SET DEFAULT" then Some(4)
    else if actionKey == "RESTRICT" then Some(1)
    else None
  }

  /** The searched actions, in order. `SET DEFAULT`, which has a code, is not among them. */
  const SEARCHED: seq<Action> := [Restrict, Cascade, SetNull, NoAction]

  /** The place in the search. */
  function Rank(a: Action): (i: nat)
    ensures a == SetDefault <==> i >= 4
    ensures a != SetDefault ==> SEARCHED[i] == a
  {
    match a case Restrict => 0 case Cascade => 1 case SetNull => 2 case NoAction => 3 case SetDefault => 4
  }

  function Code(a: Action): nat {
    match a case Restrict => 1 case Cascade => 0 case SetNull => 2 case NoAction => 3 case SetDefault => 4
  }

  /** The later an action stands in the search order, the more it counts. */
  function LastFound(part: string, prefix: string, n: nat): Action
    requires n <= 4
  {
    if n == 0 then Restrict
    else if Find(part, prefix + ActionText(SEARCHED[n - 1]), 0).Some? then SEARCHED[n - 1]
    else LastFound(part, prefix, n - 1)
  }

  method ReferenceActions(part: string) returns (onUpdate: nat, onDelete: nat)
    ensures onUpdate == Code(LastFound(part, "ON UPDATE ", 4))
    ensures onDelete == Code(LastFound(part, "ON DELETE ", 4))
  {
    onUpdate, onDelete := 1, 1;
    var i := 0;
    while i < 4
      invariant 0 <= i <= 4
      invariant onUpdate == Code(LastFound(part, "ON UPDATE ", i))
      invariant onDelete == Code(LastFound(part, "ON DELETE ", i))
    {
      hide Find;
      var text := ActionText(SEARCHED[i]);
      var code := GetImportedKeyAction(text);
      assert code == Some(Code(SEARCHED[i])) by { CodeOfText(SEARCHED[i]); }
      if Find(part, "ON UPDATE " + text, 0).Some? { onUpdate := code.value; }
      if Find(part, "ON DELETE " + text, 0).Some? { onDelete := code.value; }
      i := i + 1;
    }
  }

  lemma CodeOfText(a: Action)
    ensures GetImportedKeyAction(ActionText(a)) == Some(Code(a))
  {
  }

  // ---------- where an action text can occur in a clause ----------

  predicate IsPrefix(prefix: string) {
    prefix == "ON UPDATE " || prefix == "ON DELETE "
  }

  function Needle(prefix: string, a: Action): string {
    prefix + ActionText(a)
  }

  /** Enough of the needles' shape to keep them inside one piece of the clause. */
  ghost predicate Shaped(needle: string) {
    && |needle| >= 17 && TickFree(needle) && needle[0] == 'O'
    && forall k :: 0 < k < |needle| ==>
         needle[k] != ',' && needle[k] != ')'
         && (needle[k] == ' ' ==> k + 1 < |needle| && needle[k + 1] != 'O')
  }

  lemma PrefixShape(prefix: string)
    requires IsPrefix(prefix)
    ensures |prefix| == 10 && prefix[0] == 'O' && prefix[3] in {'U', 'D'}
    ensures forall k :: 0 <= k < 10 ==>
              prefix[k] !in {',', ')', TICK} && (prefix[k] == ' ' ==> k == 9 || prefix[k + 1] != 'O')
  {
  }

  lemma TextShape(a: Action)
    ensures var t := ActionText(a);
            && 7 <= |t| <= 11 && t[4] in {'R', 'A', 'N', 'C', 'D'}
            && forall k :: 0 <= k < |t| ==>
                 t[k] !in {',', ')', TICK} && (t[k] == ' ' ==> k + 1 < |t| && t[k + 1] != 'O')
  {
  }

  lemma NeedleShaped(prefix: string, a: Action)
    requires IsPrefix(prefix)
    ensures Shaped(Needle(prefix, a))
  {
    PrefixShape(prefix);
    TextShape(a);
    hide ActionText, IsPrefix;
  }

  /** The action's own text starts its printed form, behind one space, and occurs nowhere else. */
  lemma ActionOccurrence(printed: string, b: Action, prefix: string, a: Action, i: nat)
    requires IsPrefix(printed) && IsPrefix(prefix)
    requires OccursAt(PrintAction(printed, Some(b)), Needle(prefix, a), i)
    ensures printed == prefix && b == a
  {
    var text, needle := PrintAction(printed, Some(b)), Needle(prefix, a);
    PrefixShape(printed);
    PrefixShape(prefix);
    TextShape(a);
    TextShape(b);
    var n := text[i..i + |needle|];
    assert i <= 5 && text[i] == n[0] == 'O';
    assert i == 1;
    assert text[4] == n[3] && text[15] == n[14];
    assert printed[3] == text[4] && prefix[3] == needle[3];
    assert ActionText(b)[4] == text[15] && ActionText(a)[4] == needle[14];
  }

  /** A printed action contains its own needle and no other. */
  lemma ActionContains(printed: string, b: Action, prefix: string, a: Action)
    requires IsPrefix(printed) && IsPrefix(prefix)
    ensures Contains(PrintAction(printed, Some(b)), Needle(prefix, a)) <==> printed == prefix && b == a
  {
    var text, needle := PrintAction(printed, Some(b)), Needle(prefix, a);
    if printed == prefix && b == a {
      assert text[1..1 + |needle|] == needle;
      assert OccursAt(text, needle, 1);
    }
    forall i: nat | OccursAt(text, needle, i) ensures printed == prefix && b == a {
      ActionOccurrence(printed, b, prefix, a, i);
    }
  }

  lemma NothingBehind(x: string, end: string, needle: string)
    requires Shaped(needle) && (end == "" || end == ",")
    ensures Contains(x + end, needle) <==> Contains(x, needle)
  {
    forall k: nat ensures !Straddles(x, end, needle, k) {
      StraddledCharacters(x, end, needle, k);
    }
    SplitContains(x, end, needle);
    TooShort(end, needle);
  }

  lemma SplitAtAction(x: string, printed: string, b: Option<Action>, prefix: string, a: Action)
    requires IsPrefix(printed) && IsPrefix(prefix)
    ensures Contains(x + PrintAction(printed, b), Needle(prefix, a))
        <==> Contains(x, Needle(prefix, a)) || (printed == prefix && b == Some(a))
  {
    var y, needle := PrintAction(printed, b), Needle(prefix, a);
    NeedleShaped(prefix, a);
    if b.None? {
      assert x + y == x;
    } else {
      ActionContains(printed, b.value, prefix, a);
      assert y[0] == ' ' && y[1] == 'O';
      hide Needle, PrintAction, ActionText;
      forall k: nat ensures !Straddles(x, y, needle, k) {
        StraddledCharacters(x, y, needle, k);
      }
      SplitContains(x, y, needle);
    }
  }

  function Printed(c: Clause, prefix: string): Option<Action> {
    if prefix == "ON UPDATE " then c.onUpdate else c.onDelete
  }

  lemma ActionsContain(c: Clause, end: string, prefix: string, a: Action)
    requires IsPrefix(prefix) && (end == "" || end == ",")
    ensures Contains(")" + (PrintActions(c) + end), Needle(prefix, a)) <==> Printed(c, prefix) == Some(a)
  {
    var needle := Needle(prefix, a);
    NeedleShaped(prefix, a);
    var del, upd := PrintAction("ON DELETE ", c.onDelete), PrintAction("ON UPDATE ", c.onUpdate);
    assert PrintActions(c) == del + upd;
    hide Needle, PrintAction, PrintActions, Contains;
    Regroup2(del, upd, end);
    Regroup2(")", del, upd + end);
    Regroup2(")" + del, upd, end);
    NothingBehind((")" + del) + upd, end, needle);
    SplitAtAction(")" + del, "ON UPDATE ", c.onUpdate, prefix, a);
    SplitAtAction(")", "ON DELETE ", c.onDelete, prefix, a);
    TooShort(")", needle);
  }

  // ---------- the whole clause ----------

  ghost predicate AnyContains(names: seq<string>, needle: string) {
    exists i :: 0 <= i < |names| && Contains(names[i], needle)
  }

  /** One of the clause's names has the text inside it. */
  ghost predicate Embedded(c: Clause, needle: string) {
    || Contains(c.constraint, needle) || AnyContains(c.columns, needle)
    || Contains(c.refSchema, needle) || Contains(c.refTable, needle) || AnyContains(c.refColumns, needle)
  }

  lemma NoneInGap(gap: string, needle: string)
    requires Spaces(gap) && Shaped(needle)
    ensures !Contains("," + gap, needle)
  {
    forall i: nat ensures !OccursAt("," + gap, needle, i) {
      FirstCharacter("," + gap, needle, i);
    }
  }

  lemma FirstCharacter(text: string, needle: string, i: nat)
    ensures OccursAt(text, needle, i) && needle != [] ==> text[i] == needle[0]
  {
    if OccursAt(text, needle, i) && needle != [] { assert text[i..i + |needle|][0] == text[i]; }
  }

  lemma AnyContainsCons(names: seq<string>, needle: string)
    requires names != []
    ensures AnyContains(names, needle) <==> Contains(names[0], needle) || AnyContains(names[1..], needle)
  {
    if i :| 0 <= i < |names| && Contains(names[i], needle) {
      if i > 0 { assert names[1..][i - 1] == names[i]; }
    }
    if i :| 0 <= i < |names[1..]| && Contains(names[1..][i], needle) { assert names[i + 1] == names[1..][i]; }
  }

  lemma {:induction false} MoreContains(names: seq<string>, gap: string, rest: string, needle: string)
    requires Spaces(gap) && Shaped(needle)
    ensures Contains(PrintMore(names, gap) + rest, needle)
        <==> AnyContains(names, needle) || Contains(")" + rest, needle)
    decreases |names|
  {
    if names != [] {
      var n, more := names[0], PrintMore(names[1..], gap);
      Regroup4(",", gap, Quoted(n), more, rest);
      Regroup2(",", gap, Quoted(n) + (more + rest));
      hide Quoted, Contains, PrintMore, Shaped;
      assert needle != [] && TickFree(needle) by { ShapedIsTickFree(needle); }
      SplitAtName("," + gap, n, more + rest, needle);
      NoneInGap(gap, needle);
      MoreContains(names[1..], gap, rest, needle);
      AnyContainsCons(names, needle);
    }
  }

  lemma ShapedIsTickFree(needle: string)
    requires Shaped(needle)
    ensures |needle| >= 17 && TickFree(needle)
  {
  }

  lemma ListContains(lit: string, names: seq<string>, gap: string, rest: string, needle: string)
    requires Spaces(gap) && Shaped(needle) && |lit| <= 13
    ensures Contains(lit + (PrintList(names, gap) + rest), needle)
        <==> AnyContains(names, needle) || Contains(")" + rest, needle)
  {
    ShapedIsTickFree(needle);
    TooShort(lit + "(", needle);
    if names == [] {
      assert lit + (PrintList(names, gap) + rest) == (lit + "(") + (")" + rest);
      forall k: nat ensures !Straddles(lit + "(", ")" + rest, needle, k) {
        StraddledCharacters(lit + "(", ")" + rest, needle, k);
      }
      SplitContains(lit + "(", ")" + rest, needle);
    } else {
      var n, more := names[0], PrintMore(names[1..], gap);
      Regroup3("(", Quoted(n), more, rest);
      Regroup2(lit, "(", Quoted(n) + (more + rest));
      assert PrintList(names, gap) == "(" + (Quoted(n) + more);
      hide Quoted, Contains, PrintMore, PrintList;
      SplitAtName(lit + "(", n, more + rest, needle);
      MoreContains(names[1..], gap, rest, needle);
      AnyContainsCons(names, needle);
    }
  }

  lemma TableContains(c: Clause, rest: string, needle: string)
    requires Shaped(needle)
    ensures Contains(") REFERENCES " + (PrintTable(c.refSchema, c.refTable) + rest), needle)
        <==> Contains(c.refSchema, needle) || Contains(c.refTable, needle) || Contains(rest, needle)
  {
    ShapedIsTickFree(needle);
    TooShort(") REFERENCES ", needle);
    TooShort(".", needle);
    TooShort("", needle);
    hide Quoted, Contains;
    if c.refSchema == "" {
      SplitAtName(") REFERENCES ", c.refTable, rest, needle);
    } else {
      Regroup3(Quoted(c.refSchema), ".", Quoted(c.refTable), rest);
      SplitAtName(") REFERENCES ", c.refSchema, "." + (Quoted(c.refTable) + rest), needle);
      SplitAtName(".", c.refTable, rest, needle);
    }
  }

  lemma HeadText(c: Clause, end: string)
    ensures PrintClause(c, end) == "CONSTRAINT " + (Quoted(c.constraint) + ForeignKeyText(c, end))
    ensures ForeignKeyText(c, end) == " FOREIGN KEY " + (PrintList(c.columns, c.gap) + ReferencesText(c, end))
  {
    hide Quoted, PrintList, ReferencesText;
    var columns := PrintList(c.columns, c.gap) + ReferencesText(c, end);
    Regroup2(" ", "FOREIGN KEY", " " + columns);
    Regroup2(" FOREIGN KEY", " ", columns);
    assert " " + "FOREIGN KEY" == " FOREIGN KEY" && " FOREIGN KEY" + " " == " FOREIGN KEY ";
    var name := Quoted(c.constraint) + ForeignKeyText(c, end);
    Regroup2("CONSTRAINT", " ", name);
    assert "CONSTRAINT" + " " == "CONSTRAINT ";
  }

  lemma HeadContains(c: Clause, end: string, needle: string)
    requires Shaped(needle) && WellFormed(c)
    ensures Contains(PrintClause(c, end), needle)
        <==> Contains(c.constraint, needle) || AnyContains(c.columns, needle)
             || Contains(")" + ReferencesText(c, end), needle)
  {
    ShapedIsTickFree(needle);
    HeadText(c, end);
    TooShort("CONSTRAINT ", needle);
    hide Quoted, Contains, PrintList, ReferencesText, PrintClause, ForeignKeyText, AnyContains, Shaped;
    SplitAtName("CONSTRAINT ", c.constraint, ForeignKeyText(c, end), needle);
    ListContains(" FOREIGN KEY ", c.columns, c.gap, ReferencesText(c, end), needle);
  }

  lemma ReferencesHead(c: Clause, end: string)
    ensures ")" + ReferencesText(c, end)
         == ") REFERENCES " + (PrintTable(c.refSchema, c.refTable) + ReferencedColumnsText(c, end))
  {
    hide PrintTable, ReferencedColumnsText;
    var table := PrintTable(c.refSchema, c.refTable) + ReferencedColumnsText(c, end);
    Regroup2("REFERENCES", " ", table);
    Regroup2(" ", "REFERENCES ", table);
    Regroup2(")", " REFERENCES ", table);
    assert "REFERENCES" + " " == "REFERENCES " && " " + "REFERENCES " == " REFERENCES ";
    assert ")" + " REFERENCES " == ") REFERENCES ";
  }

  lemma ReferencesContain(c: Clause, end: string, needle: string)
    requires Shaped(needle) && WellFormed(c)
    ensures Contains(")" + ReferencesText(c, end), needle)
        <==> Contains(c.refSchema, needle) || Contains(c.refTable, needle) || AnyContains(c.refColumns, needle)
             || Contains(")" + (PrintActions(c) + end), needle)
  {
    ReferencesHead(c, end);
    hide Contains, PrintTable, PrintList, ReferencesText, PrintActions, AnyContains, Shaped;
    TableContains(c, ReferencedColumnsText(c, end), needle);
    ListContains(" ", c.refColumns, c.gap, PrintActions(c) + end, needle);
  }

  /** An action text occurs in a printed clause exactly when it was printed as the action, or
      when one of the clause's names contains it. */
  lemma ClauseContains(c: Clause, end: string, prefix: string, a: Action)
    requires WellFormed(c) && IsPrefix(prefix) && (end == "" || end == ",")
    ensures Find(PrintClause(c, end), Needle(prefix, a), 0).Some?
        <==> Printed(c, prefix) == Some(a) || Embedded(c, Needle(prefix, a))
  {
    var needle := Needle(prefix, a);
    NeedleShaped(prefix, a);
    FoundIff(PrintClause(c, end), needle);
    hide Contains, PrintClause, AnyContains, PrintActions, ReferencesText, Needle;
    HeadContains(c, end, needle);
    ReferencesContain(c, end, needle);
    ActionsContain(c, end, prefix, a);
  }

  // ---------- the rule that is read ----------

  /** The printed action; a clause without one means RESTRICT. */
  function Meant(c: Clause, prefix: string): Action {
    var a := Printed(c, prefix);
    if a.None? then Restrict else a.value
  }

  /** No name embeds an action text that the search prefers to the printed one. */
  ghost predicate NoMisleadingName(c: Clause, prefix: string) {
    forall a: Action :: a != SetDefault && Embedded(c, Needle(prefix, a)) ==> Rank(a) <= Rank(Meant(c, prefix))
  }

  /** The rule can be told from the line: it is searched for, and no name misleads the search. */
  ghost predicate Tellable(c: Clause, prefix: string) {
    Meant(c, prefix) != SetDefault && NoMisleadingName(c, prefix)
  }

  /** The rule the driver reports is the rule of the clause exactly when it can be told. */
  lemma RuleReadIff(c: Clause, end: string, prefix: string)
    requires WellFormed(c) && IsPrefix(prefix) && (end == "" || end == ",")
    ensures Code(LastFound(PrintClause(c, end), prefix, 4)) == Code(Meant(c, prefix))
        <==> Tellable(c, prefix)
  {
    hide Find, PrintClause, Embedded, Printed, LastFound, ActionText, Needle;
    var text := PrintClause(c, end);
    LastFoundIs(text, prefix, 4);
    ClauseContains(c, end, prefix, LastFound(text, prefix, 4));
    ClauseContains(c, end, prefix, Meant(c, prefix));
    forall a: Action
      ensures Find(text, Needle(prefix, a), 0).Some? <==> Printed(c, prefix) == Some(a) || Embedded(c, Needle(prefix, a))
    {
      ClauseContains(c, end, prefix, a);
    }
    hide IsPrefix, WellFormed;
  }

  /** The search reports the found action of highest rank, or RESTRICT. */
  lemma {:induction false} LastFoundIs(part: string, prefix: string, n: nat)
    requires n <= 4
    ensures var r := LastFound(part, prefix, n);
            && (r == Restrict || Find(part, Needle(prefix, r), 0).Some?)
            && (forall a: Action :: Rank(a) < n && Find(part, Needle(prefix, a), 0).Some? ==> Rank(a) <= Rank(r))
            && (n > 0 ==> Rank(r) < n)
  {
    hide Find, ActionText;
    if n > 0 {
      LastFoundIs(part, prefix, n - 1);
      forall a: Action | Rank(a) == n - 1 ensures a == SEARCHED[n - 1] {
      }
    }
  }

  /** A clause without actions whose constraint is named so is reported as ON DELETE CASCADE. */
  lemma MisleadingName(columns: seq<string>, table: string)
    ensures var c := Clause("x ON DELETE CASCADE", columns, "", table, columns, None, None, "");
            Code(LastFound(PrintClause(c, ""), "ON DELETE ", 4)) != Code(Meant(c, "ON DELETE "))
  {
    var c := Clause("x ON DELETE CASCADE", columns, "", table, columns, None, None, "");
    var needle := Needle("ON DELETE ", Cascade);
    assert c.constraint[2..2 + |needle|] == needle;
    assert OccursAt(c.constraint, needle, 2);
    assert Embedded(c, needle) && !Tellable(c, "ON DELETE ");
    hide Needle, Embedded, LastFound, PrintClause;
    RuleReadIff(c, "", "ON DELETE ");
  }

  /** `SET DEFAULT` is reported as RESTRICT, whatever the names, as long as none misleads. */
  lemma SetDefaultUnread(c: Clause, end: string, prefix: string)
    requires WellFormed(c) && IsPrefix(prefix) && (end == "" || end == ",")
    requires Printed(c, prefix) == Some(SetDefault)
    requires forall a: Action :: a != SetDefault ==> !Embedded(c, Needle(prefix, a))
    ensures LastFound(PrintClause(c, end), prefix, 4) == Restrict
  {
    var text := PrintClause(c, end);
    LastFoundIs(text, prefix, 4);
    var r := LastFound(text, prefix, 4);
    ClauseContains(c, end, prefix, r);
    hide Find, PrintClause, Embedded, LastFound, Needle;
  }
}
