/** Text primitives shared by the other modules: searching as `std::string::find` does,
    white space as `std::isspace` does, and decimal numerals as `std::to_string` prints them.
    A `char` stands for one byte of the driver's strings. */
module Strings {

  datatype Option<+T> = None | Some(value: T)

  // ---------- searching ----------

  ghost predicate OccursAt(text: string, needle: string, i: nat) {
    i + |needle| <= |text| && text[i..i + |needle|] == needle
  }

  ghost predicate Contains(text: string, needle: string) {
    exists i: nat :: OccursAt(text, needle, i)
  }

  /** `text.find(needle, from)`: the first occurrence at or after `from`. */
  function Find(text: string, needle: string, from: nat): (r: Option<nat>)
    ensures r.Some? ==> from <= r.value <= |text| - |needle|
    decreases |text| - from
  {
    if from + |needle| > |text| then None
    else if text[from..from + |needle|] == needle then Some(from)
    else Find(text, needle, from + 1)
  }

  lemma {:induction false} FindFirst(text: string, needle: string, from: nat)
    ensures var r := Find(text, needle, from);
            if r.Some? then
              OccursAt(text, needle, r.value)
              && forall i: nat :: from <= i < r.value ==> !OccursAt(text, needle, i)
            else forall i: nat :: from <= i ==> !OccursAt(text, needle, i)
    decreases |text| - from
  {
    if from + |needle| <= |text| && text[from..from + |needle|] != needle {
      FindFirst(text, needle, from + 1);
    }
  }

  /** The first occurrence is unique, so a witness settles what `Find` returns. */
  lemma FindIs(text: string, needle: string, from: nat, at: nat)
    requires from <= at && OccursAt(text, needle, at)
    requires forall i: nat :: from <= i < at ==> !OccursAt(text, needle, i)
    ensures Find(text, needle, from) == Some(at)
  {
    FindFirst(text, needle, from);
  }

  lemma {:induction false} FindShifted(text: string, needle: string, from: nat, at: nat)
    requires from <= at <= |text|
    ensures var r, q := Find(text, needle, at), Find(text[from..], needle, at - from);
            r.Some? == q.Some? && (r.Some? ==> r.value == q.value + from)
    decreases |text| - at
  {
    if at + |needle| <= |text| && text[at..at + |needle|] != needle {
      assert text[from..][at - from..at - from + |needle|] == text[at..at + |needle|];
      if at < |text| { FindShifted(text, needle, from, at + 1); }
    } else if at + |needle| <= |text| {
      assert text[from..][at - from..at - from + |needle|] == text[at..at + |needle|];
    }
  }

  // ---------- regrouping concatenations ----------

  lemma Regroup2(a: string, b: string, r: string)
    ensures (a + b) + r == a + (b + r)
  {
  }

  lemma Regroup3(a: string, b: string, c: string, r: string)
    ensures (a + (b + c)) + r == a + (b + (c + r))
  {
  }

  lemma Regroup4(a: string, b: string, c: string, d: string, r: string)
    ensures (a + (b + (c + d))) + r == a + (b + (c + (d + r)))
  {
    Regroup3(b, c, d, r);
    Regroup2(a, b + (c + d), r);
  }

  // ---------- white space ----------

  /** `std::isspace` in the "C" locale. */
  predicate IsSpace(c: char) {
    c == ' ' || c == '\t' || c == '\n' || c == '\r' || c as int == 11 || c as int == 12
  }

  predicate AllSpace(s: string) {
    forall i :: 0 <= i < |s| ==> IsSpace(s[i])
  }

  // ---------- decimal numerals ----------

  predicate IsDigit(c: char) {
    '0' <= c <= '9'
  }

  function Digit(d: nat): (c: char)
    requires d < 10
    ensures IsDigit(c) && c as int == '0' as int + d
  {
    ('0' as int + d) as char
  }

  /** `std::to_string` of a non-negative integer. */
  function Decimal(n: nat): (s: string)
    ensures s != [] && forall i :: 0 <= i < |s| ==> IsDigit(s[i])
  {
    if n < 10 then [Digit(n)] else Decimal(n / 10) + [Digit(n % 10)]
  }

  /** Reading a numeral back. */
  function Value(s: string): nat
    requires forall i :: 0 <= i < |s| ==> IsDigit(s[i])
  {
    if s == [] then 0
    else
      assert IsDigit(s[|s| - 1]);
      10 * Value(s[..|s| - 1]) + (s[|s| - 1] as int - '0' as int)
  }

  lemma {:induction false} ValueOfDecimal(n: nat)
    ensures Value(Decimal(n)) == n
  {
    if n >= 10 {
      ValueOfDecimal(n / 10);
      assert Decimal(n)[..|Decimal(n)| - 1] == Decimal(n / 10);
    }
  }

  lemma DecimalInjective(m: nat, n: nat)
    requires Decimal(m) == Decimal(n)
    ensures m == n
  {
    ValueOfDecimal(m);
    ValueOfDecimal(n);
  }
}
