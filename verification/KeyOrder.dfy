/** The ordering of imported-key rows: the comparator handed to `std::sort`
    (src/MariaDbDatabaseMetaData.cpp:310-331), and why sorting by it is meaningful. */
module KeyOrder {
  import opened Strings

  /** The columns of one row that are not always NULL. */
  datatype Row = Row(
    pkSchema: string, pkTable: string, pkColumn: string,
    fkSchema: string, fkTable: string, fkColumn: string,
    keySeq: string, updateRule: string, deleteRule: string,
    fkName: string, deferrability: string)

  const NUL: char := 0 as char

  /** C's `strncmp(a, b, n)` from byte `i` on: it stops at the first difference, or at a NUL. */
  function Strncmp(a: string, b: string, i: nat, n: nat): int
    requires n <= |a| && n <= |b|
    decreases n - i
  {
    if i >= n then 0
    else if a[i] != b[i] then a[i] as int - b[i] as int
    else if a[i] == NUL then 0
    else Strncmp(a, b, i + 1, n)
  }

  function Min(m: nat, n: nat): nat {
    if m < n then m else n
  }

  /** The comparator, branch by branch. */
  predicate Before(row1: Row, row2: Row) {
    var result := Strncmp(row1.pkSchema, row2.pkSchema, 0, Min(|row1.pkSchema|, |row2.pkSchema|));
    if result != 0 then result < 0
    else if |row1.pkSchema| != |row2.pkSchema| then |row1.pkSchema| < |row2.pkSchema|
    else
      var result := Strncmp(row1.pkTable, row2.pkTable, 0, Min(|row1.pkTable|, |row2.pkTable|));
      if result != 0 then result < 0
      else if |row1.pkTable| != |row2.pkTable| then |row1.pkTable| < |row2.pkTable|
      else
        var result := |row1.keySeq| - |row2.keySeq|;
        if result != 0 then result < 0
        else Strncmp(row1.keySeq, row2.keySeq, 0, |row1.keySeq|) < 0
  }

  // ---------- three-way comparison, structurally ----------

  /** Bytewise up to the shorter text or a common NUL, then by length. */
  function TextOrder(a: string, b: string): int {
    if a == [] || b == [] then |a| - |b|
    else if a[0] != b[0] then a[0] as int - b[0] as int
    else if a[0] == NUL then |a| - |b|
    else TextOrder(a[1..], b[1..])
  }

  function NumeralOrder(a: string, b: string): int {
    if |a| != |b| then |a| - |b| else TextOrder(a, b)
  }

  function RowOrder(row1: Row, row2: Row): int {
    var s, t := TextOrder(row1.pkSchema, row2.pkSchema), TextOrder(row1.pkTable, row2.pkTable);
    if s != 0 then s else if t != 0 then t else NumeralOrder(row1.keySeq, row2.keySeq)
  }

  lemma {:induction false} StrncmpIsTextOrder(a: string, b: string, i: nat)
    requires i <= Min(|a|, |b|)
    ensures var r := Strncmp(a, b, i, Min(|a|, |b|));
            TextOrder(a[i..], b[i..]) == if r != 0 then r else |a| - |b|
    decreases |a| - i
  {
    if i < Min(|a|, |b|) {
      StrncmpIsTextOrder(a, b, i + 1);
      assert a[i..][1..] == a[i + 1..] && b[i..][1..] == b[i + 1..];
    }
  }

  lemma BeforeIsRowOrder(row1: Row, row2: Row)
    ensures Before(row1, row2) <==> RowOrder(row1, row2) < 0
  {
    StrncmpIsTextOrder(row1.pkSchema, row2.pkSchema, 0);
    StrncmpIsTextOrder(row1.pkTable, row2.pkTable, 0);
    StrncmpIsTextOrder(row1.keySeq, row2.keySeq, 0);
    assert forall s: string {:trigger s[0..]} :: s[0..] == s;
  }

  // ---------- a strict weak order ----------

  /** `x` and `y` agree in sign. */
  predicate SameSign(x: int, y: int) {
    (x < 0 <==> y < 0) && (x > 0 <==> y > 0)
  }

  lemma {:induction false} TextOrderLaws(a: string, b: string, c: string)
    ensures SameSign(TextOrder(a, b), -TextOrder(b, a))
    ensures TextOrder(a, b) <= 0 && TextOrder(b, c) <= 0
            ==> TextOrder(a, c) <= 0
                && (TextOrder(a, c) == 0 ==> TextOrder(a, b) == 0 && TextOrder(b, c) == 0)
    decreases |a| + |b| + |c|
  {
    if a != [] && b != [] {
      TextOrderLaws(a[1..], b[1..], if c == [] then [] else c[1..]);
    }
  }

  lemma RowOrderLaws(a: Row, b: Row, c: Row)
    ensures SameSign(RowOrder(a, b), -RowOrder(b, a))
    ensures RowOrder(a, b) <= 0 && RowOrder(b, c) <= 0
            ==> RowOrder(a, c) <= 0
                && (RowOrder(a, c) == 0 ==> RowOrder(a, b) == 0 && RowOrder(b, c) == 0)
  {
    TextOrderLaws(a.pkSchema, b.pkSchema, c.pkSchema);
    TextOrderLaws(a.pkTable, b.pkTable, c.pkTable);
    TextOrderLaws(a.keySeq, b.keySeq, c.keySeq);
  }

  /** What `std::sort` requires of its comparator, for any rows at all: irreflexive, transitive,
      and incomparability is transitive. */
  lemma StrictWeakOrder(a: Row, b: Row, c: Row)
    ensures !Before(a, a)
    ensures Before(a, b) && Before(b, c) ==> Before(a, c)
    ensures !Before(a, b) && !Before(b, a) && !Before(b, c) && !Before(c, b)
            ==> !Before(a, c) && !Before(c, a)
  {
    RowOrderLaws(a, a, a);
    RowOrderLaws(a, b, c);
    RowOrderLaws(b, c, a);
    RowOrderLaws(c, b, a);
    RowOrderLaws(a, c, b);
    forall x, y | x in {a, b, c} && y in {a, b, c} ensures Before(x, y) <==> RowOrder(x, y) < 0 {
      BeforeIsRowOrder(x, y);
    }
  }

  // ---------- the order that was meant ----------

  predicate NulFree(s: string) {
    forall i :: 0 <= i < |s| ==> s[i] != NUL
  }

  /** Lexicographic order on byte strings. */
  predicate LexLess(a: string, b: string) {
    b != [] && (a == [] || a[0] < b[0] || (a[0] == b[0] && LexLess(a[1..], b[1..])))
  }

  lemma {:induction false} TextOrderIsLexicographic(a: string, b: string)
    requires NulFree(a) || NulFree(b)
    ensures TextOrder(a, b) < 0 <==> LexLess(a, b)
    ensures TextOrder(a, b) == 0 <==> a == b
  {
    if a != [] && b != [] && a[0] == b[0] && a[0] != NUL {
      TextOrderIsLexicographic(a[1..], b[1..]);
      assert a == [a[0]] + a[1..] && b == [b[0]] + b[1..];
    }
  }

  /** Appending a digit to equally long numerals decides only between equal ones. */
  lemma {:induction false} AppendDigit(a: string, b: string, x: char, y: char)
    requires |a| == |b| && NulFree(a) && x != NUL
    ensures TextOrder(a + [x], b + [y])
         == if TextOrder(a, b) != 0 then TextOrder(a, b) else x as int - y as int
  {
    if a == [] {
      assert a + [x] == [x] && b + [y] == [y];
    } else {
      assert (a + [x])[1..] == a[1..] + [x] && (b + [y])[1..] == b[1..] + [y];
      if a[0] == b[0] { AppendDigit(a[1..], b[1..], x, y); }
    }
  }

  /** Comparing `std::to_string` numerals by length and then bytewise is comparing the numbers. */
  lemma {:induction false} NumeralOrderIsNumeric(m: nat, n: nat)
    ensures SameSign(NumeralOrder(Decimal(m), Decimal(n)), m - n)
  {
    if m >= 10 && n >= 10 {
      NumeralOrderIsNumeric(m / 10, n / 10);
      if |Decimal(m)| == |Decimal(n)| {
        AppendDigit(Decimal(m / 10), Decimal(n / 10), Digit(m % 10), Digit(n % 10));
      }
    } else if m < 10 && n < 10 {
      AppendDigit([], [], Digit(m), Digit(n));
      assert [] + [Digit(m)] == Decimal(m) && [] + [Digit(n)] == Decimal(n);
    }
  }

  /** For names without NUL the comparator is lexicographic order on
      (schema bytes, table bytes, KEY_SEQ as a number). */
  lemma BeforeIsLexicographic(row1: Row, row2: Row, m: nat, n: nat)
    requires NulFree(row1.pkSchema) && NulFree(row1.pkTable)
    requires row1.keySeq == Decimal(m) && row2.keySeq == Decimal(n)
    ensures Before(row1, row2) <==>
            || LexLess(row1.pkSchema, row2.pkSchema)
            || (row1.pkSchema == row2.pkSchema && LexLess(row1.pkTable, row2.pkTable))
            || (row1.pkSchema == row2.pkSchema && row1.pkTable == row2.pkTable && m < n)
  {
    BeforeIsRowOrder(row1, row2);
    TextOrderIsLexicographic(row1.pkSchema, row2.pkSchema);
    TextOrderIsLexicographic(row1.pkTable, row2.pkTable);
    NumeralOrderIsNumeric(m, n);
    if row1.pkSchema == row2.pkSchema { LexIrreflexive(row1.pkSchema); }
    if row1.pkTable == row2.pkTable { LexIrreflexive(row1.pkTable); }
  }

  lemma {:induction false} LexIrreflexive(s: string)
    ensures !LexLess(s, s)
  {
    if s != [] { LexIrreflexive(s[1..]); }
  }

  // ---------- sorting ----------

  ghost predicate Ordered(rows: seq<Row>) {
    forall i, j :: 0 <= i < j < |rows| ==> !Before(rows[j], rows[i])
  }

  function Insert(row: Row, rows: seq<Row>): (r: seq<Row>)
    ensures multiset(r) == multiset(rows) + multiset{row}
  {
    if rows == [] || Before(row, rows[0]) then [row] + rows
    else
      assert rows == [rows[0]] + rows[1..];
      [rows[0]] + Insert(row, rows[1..])
  }

  /** `std::sort(data.begin(), data.end(), Before)`; which of the permitted orders of equivalent
      rows results is the library's choice, and nothing below depends on it. */
  function Sort(rows: seq<Row>): (r: seq<Row>)
    ensures multiset(r) == multiset(rows)
  {
    if rows == [] then []
    else
      assert rows == [rows[0]] + rows[1..];
      Insert(rows[0], Sort(rows[1..]))
  }

  lemma {:induction false} InsertKeepsOrder(row: Row, rows: seq<Row>)
    requires Ordered(rows)
    ensures Ordered(Insert(row, rows))
  {
    if rows == [] {
    } else if Before(row, rows[0]) {
      forall j | 0 <= j < |rows| ensures !Before(rows[j], row) {
        NotBefore(row, rows[0], rows[j]);
        NotBefore(rows[0], row, row);
        if j > 0 { assert !Before(rows[j], rows[0]); }
      }
    } else {
      var r := Insert(row, rows[1..]);
      InsertKeepsOrder(row, rows[1..]);
      forall j | 0 <= j < |r| ensures !Before(r[j], rows[0]) {
        assert r[j] in multiset(r);
        assert r[j] == row || r[j] in multiset(rows[1..]);
        if r[j] != row {
          assert r[j] in rows[1..];
          var k :| 0 <= k < |rows[1..]| && rows[1..][k] == r[j];
          assert rows[k + 1] == r[j];
        }
      }
    }
  }

  /** Not being before is transitive, and follows from being behind. */
  lemma NotBefore(a: Row, b: Row, c: Row)
    ensures !Before(b, a) && !Before(c, b) ==> !Before(c, a)
    ensures Before(a, b) ==> !Before(b, a)
  {
    RowOrderLaws(a, b, c);
    RowOrderLaws(b, c, a);
    RowOrderLaws(c, a, b);
    BeforeIsRowOrder(a, b);
    BeforeIsRowOrder(b, a);
    BeforeIsRowOrder(c, b);
    BeforeIsRowOrder(c, a);
  }

  lemma {:induction false} SortOrders(rows: seq<Row>)
    ensures Ordered(Sort(rows))
  {
    if rows != [] {
      SortOrders(rows[1..]);
      InsertKeepsOrder(rows[0], Sort(rows[1..]));
    }
  }

  // ---------- any sort will do ----------

  function CountBefore(rows: seq<Row>, x: Row): nat {
    if rows == [] then 0 else (if Before(rows[0], x) then 1 else 0) + CountBefore(rows[1..], x)
  }

  lemma {:induction false} CountAppend(a: seq<Row>, b: seq<Row>, x: Row)
    ensures CountBefore(a + b, x) == CountBefore(a, x) + CountBefore(b, x)
  {
    hide Before;
    if a == [] {
      assert a + b == b;
    } else {
      assert (a + b)[1..] == a[1..] + b;
      CountAppend(a[1..], b, x);
    }
  }

  lemma {:induction false} CountPermutes(a: seq<Row>, b: seq<Row>, x: Row)
    requires multiset(a) == multiset(b)
    ensures CountBefore(a, x) == CountBefore(b, x)
  {
    hide Before;
    if a == [] {
      assert |b| == |multiset(b)| == |multiset(a)| == 0;
    } else {
      assert a[0] in multiset(b);
      var k :| 0 <= k < |b| && b[k] == a[0];
      var front, back := b[..k], b[k + 1..];
      assert b == front + ([b[k]] + back);
      RestPermutes(a, b, front, back);
      CountPermutes(a[1..], front + back, x);
      CountAppend(front, back, x);
      CountAppend(front, [b[k]] + back, x);
      assert ([b[k]] + back)[1..] == back;
    }
  }

  lemma Cancel(x: Row, a: multiset<Row>, b: multiset<Row>, c: multiset<Row>)
    requires multiset{x} + a == b + (multiset{x} + c)
    ensures a == b + c
  {
    forall y: Row ensures a[y] == (b + c)[y] {
      assert (multiset{x} + a)[y] == (b + (multiset{x} + c))[y];
    }
  }

  lemma RestPermutes(a: seq<Row>, b: seq<Row>, front: seq<Row>, back: seq<Row>)
    requires a != [] && multiset(a) == multiset(b) && b == front + ([a[0]] + back)
    ensures multiset(a[1..]) == multiset(front + back)
  {
    assert a == [a[0]] + a[1..];
    assert multiset(b) == multiset(front) + (multiset{a[0]} + multiset(back));
    assert multiset(a) == multiset{a[0]} + multiset(a[1..]);
    assert multiset(front + back) == multiset(front) + multiset(back);
    Cancel(a[0], multiset(a[1..]), multiset(front), multiset(back));
  }

  lemma {:induction false} AllBefore(rows: seq<Row>, x: Row)
    requires forall i :: 0 <= i < |rows| ==> Before(rows[i], x)
    ensures CountBefore(rows, x) == |rows|
  {
    hide Before;
    if rows != [] { AllBefore(rows[1..], x); }
  }

  lemma {:induction false} NoneBefore(rows: seq<Row>, x: Row)
    requires forall i :: 0 <= i < |rows| ==> !Before(rows[i], x)
    ensures CountBefore(rows, x) == 0
  {
    hide Before;
    if rows != [] { NoneBefore(rows[1..], x); }
  }

  lemma {:induction false} CountAtMost(rows: seq<Row>, x: Row)
    ensures CountBefore(rows, x) <= |rows|
  {
    hide Before;
    if rows != [] { CountAtMost(rows[1..], x); }
  }

  /** In ordered rows everything up to a row is before whatever that row is before, and nothing
      from a row on is before it. */
  lemma CountsInOrder(rows: seq<Row>, i: nat, x: Row)
    requires Ordered(rows) && i < |rows|
    ensures Before(rows[i], x) ==> CountBefore(rows, x) > i
    ensures CountBefore(rows, rows[i]) <= i
  {
    var upTo, from := rows[..i + 1], rows[i + 1..];
    assert rows == upTo + from && rows == rows[..i] + rows[i..];
    if Before(rows[i], x) {
      forall j | 0 <= j <= i ensures Before(rows[j], x) {
        StrictWeakOrder(rows[i], rows[i], rows[i]);
        BeforeThrough(rows[j], rows[i], x);
      }
      hide Before;
      AllBefore(upTo, x);
      CountAppend(upTo, from, x);
    }
    forall j | i <= j < |rows| ensures !Before(rows[j], rows[i]) {
      StrictWeakOrder(rows[i], rows[i], rows[i]);
    }
    hide Before;
    NoneBefore(rows[i..], rows[i]);
    CountAppend(rows[..i], rows[i..], rows[i]);
    CountAtMost(rows[..i], rows[i]);
  }

  lemma BeforeThrough(a: Row, b: Row, c: Row)
    requires !Before(b, a) && Before(b, c)
    ensures Before(a, c)
  {
    RowOrderLaws(a, b, c);
    RowOrderLaws(b, a, c);
    RowOrderLaws(b, c, a);
    RowOrderLaws(c, a, b);
    RowOrderLaws(c, b, a);
    RowOrderLaws(a, c, b);
    BeforeIsRowOrder(b, a);
    BeforeIsRowOrder(b, c);
    BeforeIsRowOrder(a, c);
  }

  /** The comparator alone determines the sorted table: any two orderings of the same rows that
      respect it agree at every place, up to rows it does not tell apart. So whichever algorithm
      sorts, the schemas, tables and numbers come out in the same sequence. */
  lemma SortedAlike(a: seq<Row>, b: seq<Row>, i: nat)
    requires Ordered(a) && Ordered(b) && multiset(a) == multiset(b) && i < |a|
    ensures |a| == |b| && !Before(a[i], b[i]) && !Before(b[i], a[i])
  {
    assert |a| == |multiset(a)| == |multiset(b)| == |b|;
    CountPermutes(a, b, b[i]);
    CountPermutes(a, b, a[i]);
    hide Before, Ordered;
    CountsInOrder(a, i, b[i]);
    CountsInOrder(b, i, b[i]);
    CountsInOrder(b, i, a[i]);
    CountsInOrder(a, i, a[i]);
  }
}
