/** Savepoint identifiers: `MariaDbConnection::setSavepoint` numbers them
    (src/MariaDbConnection.cpp:1114-1139) and `MariaDbSavepoint::toString` glues the number to
    the name (src/MariaDbSavepoint.cpp:54-58). */
module Savepoints {
  import opened Strings

  datatype Savepoint = Savepoint(name: string, savepointId: nat)

  function ToString(s: Savepoint): string {
    s.name + Decimal(s.savepointId)
  }

  const INT_MAX: nat := 0x7fff_ffff

  class Connection {
    var savepointCount: nat
    ghost var issued: seq<Savepoint>

    ghost predicate Valid() reads this {
      && savepointCount == |issued| <= INT_MAX
      && forall i :: 0 <= i < |issued| ==> issued[i].savepointId == i
    }

    constructor ()
      ensures Valid() && issued == []
    {
      savepointCount, issued := 0, [];
    }

    method SetUnnamedSavepoint() returns (savepoint: Savepoint, sql: string)
      requires Valid() && savepointCount < INT_MAX
      modifies this
      ensures Valid() && issued == old(issued) + [savepoint]
      ensures savepoint == Savepoint("unnamed", old(savepointCount))
    {
      savepoint, sql := SetSavepoint("unnamed");
    }

    /** The statement is "SAVEPOINT " and the identifier; the count has moved on even when its
        execution fails. */
    method SetSavepoint(name: string) returns (savepoint: Savepoint, sql: string)
      requires Valid() && savepointCount < INT_MAX
      modifies this
      ensures Valid() && issued == old(issued) + [savepoint]
      ensures savepoint == Savepoint(name, old(savepointCount))
      ensures sql == "SAVEPOINT " + ToString(savepoint)
    {
      savepoint := Savepoint(name, savepointCount);
      savepointCount := savepointCount + 1;
      issued := issued + [savepoint];
      sql := "SAVEPOINT " + ToString(savepoint);
    }
  }

  // ---------- when identifiers can clash ----------

  predicate AllDigits(s: string) {
    forall i :: 0 <= i < |s| ==> IsDigit(s[i])
  }

  /** A numeral as `std::to_string` prints a positive number. */
  predicate Numeral(d: string) {
    d != [] && AllDigits(d) && d[0] != '0'
  }

  lemma {:induction false} NumeralPositive(d: string)
    requires Numeral(d)
    ensures Value(d) > 0
  {
    if |d| == 1 { assert d[..0] == []; assert IsDigit(d[0]); } else { NumeralPositive(d[..|d| - 1]); }
  }

  lemma {:induction false} DecimalOfValue(d: string)
    requires Numeral(d)
    ensures Decimal(Value(d)) == d
  {
    var front, last := d[..|d| - 1], d[|d| - 1];
    assert IsDigit(last) && d == front + [last];
    if front == [] {
      assert Value(d) == last as int - '0' as int;
      assert Decimal(Value(d)) == [last];
    } else {
      DecimalOfValue(front);
      NumeralPositive(front);
    }
  }

  lemma {:induction false} DecimalStarts(n: nat)
    ensures n > 0 ==> Numeral(Decimal(n))
    ensures n == 0 ==> Decimal(n) == "0"
  {
    if n >= 10 { DecimalStarts(n / 10); }
  }

  /** Digits behind a number make it at least ten times as large. */
  lemma {:induction false} ValueGrows(d: string, s: string)
    requires AllDigits(d) && AllDigits(s) && s != []
    ensures Value(d + s) >= 10 * Value(d)
  {
    var t := s[..|s| - 1];
    assert (d + s)[..|d + s| - 1] == d + t;
    assert IsDigit((d + s)[|d + s| - 1]);
    if t == [] { assert d + t == d; } else { ValueGrows(d, t); }
  }

  /** Name `a` is name `b` with a number behind it, small enough to have its tenfold issued. */
  ghost predicate Extends(a: string, b: string, limit: nat) {
    |b| < |a| && a[..|b|] == b && Numeral(a[|b|..]) && 10 * Value(a[|b|..]) < limit
  }

  lemma ClashMeansExtension(a: string, i: nat, b: string, j: nat, limit: nat)
    requires a + Decimal(i) == b + Decimal(j) && |a| > |b| && j < limit
    ensures Extends(a, b, limit)
  {
    var d := a[|b|..];
    assert a[..|b|] == (a + Decimal(i))[..|b|] == b;
    assert Decimal(j) == (b + Decimal(j))[|b|..] == d + Decimal(i);
    DecimalStarts(j);
    assert d[0] == Decimal(j)[0];
    forall k | 0 <= k < |d| ensures IsDigit(d[k]) { assert d[k] == Decimal(j)[k]; }
    ValueOfDecimal(j);
    ValueGrows(d, Decimal(i));
  }

  lemma ExtensionClashes(a: string, b: string, limit: nat)
    requires Extends(a, b, limit)
    ensures var j := 10 * Value(a[|b|..]);
            0 < j < limit && ToString(Savepoint(a, 0)) == ToString(Savepoint(b, j))
  {
    var d := a[|b|..];
    NumeralPositive(d);
    DecimalOfValue(d);
    var j := 10 * Value(d);
    assert Decimal(j) == Decimal(Value(d)) + [Digit(0)];
    assert Decimal(0) == [Digit(0)];
    assert a + [Digit(0)] == b + (d + [Digit(0)]);
  }

  ghost predicate Clash(a: string, i: nat, b: string, j: nat, limit: nat) {
    && i < limit && j < limit && i != j
    && ToString(Savepoint(a, i)) == ToString(Savepoint(b, j))
  }

  /** Two names can be given the same identifier, with different numbers below `limit`, exactly
      when one of them is the other with such a number behind it. */
  lemma NamesClashIff(a: string, b: string, limit: nat)
    ensures (exists i: nat, j: nat :: Clash(a, i, b, j, limit)) <==> Extends(a, b, limit) || Extends(b, a, limit)
  {
    if i: nat, j: nat :| Clash(a, i, b, j, limit) {
      if |a| == |b| {
        assert (a + Decimal(i))[|a|..] == Decimal(i) && (b + Decimal(j))[|b|..] == Decimal(j);
        DecimalInjective(i, j);
      } else if |a| > |b| {
        ClashMeansExtension(a, i, b, j, limit);
      } else {
        ClashMeansExtension(b, j, a, i, limit);
      }
    }
    if Extends(a, b, limit) {
      ExtensionClashes(a, b, limit);
      assert Clash(a, 0, b, 10 * Value(a[|b|..]), limit);
    } else if Extends(b, a, limit) {
      ExtensionClashes(b, a, limit);
      var j := 10 * Value(b[|a|..]);
      assert Clash(a, j, b, 0, limit);
    }
  }

  /** The smallest clash: "a1" numbered 0 and "a" numbered 10. */
  lemma NamesClash()
    ensures ToString(Savepoint("a1", 0)) == ToString(Savepoint("a", 10))
  {
    assert Decimal(10) == Decimal(1) + [Digit(0)];
  }

  lemma ExtensionEndsInDigit(a: string, b: string, limit: nat)
    ensures Extends(a, b, limit) ==> a != [] && IsDigit(a[|a| - 1])
  {
    if Extends(a, b, limit) {
      var d := a[|b|..];
      assert IsDigit(d[|d| - 1]);
    }
  }

  /** Over a run on one connection, names that do not end in a digit (the default "unnamed" is
      one) get pairwise distinct identifiers. */
  lemma IdentifiersDistinct(issued: seq<Savepoint>, i: nat, j: nat)
    requires i < j < |issued| && |issued| <= INT_MAX
    requires forall k :: 0 <= k < |issued| ==> issued[k].savepointId == k
    requires forall k :: 0 <= k < |issued| ==>
               issued[k].name == [] || !IsDigit(issued[k].name[|issued[k].name| - 1])
    ensures ToString(issued[i]) != ToString(issued[j])
  {
    var a, b := issued[i].name, issued[j].name;
    NamesClashIff(a, b, |issued|);
    ExtensionEndsInDigit(a, b, |issued|);
    ExtensionEndsInDigit(b, a, |issued|);
    assert issued[i] == Savepoint(a, i) && issued[j] == Savepoint(b, j);
    assert Clash(a, i, b, j, |issued|) <==> ToString(issued[i]) == ToString(issued[j]);
  }
}
