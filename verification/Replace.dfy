/** Identifier quoting through the driver's own `replace`.

    `replaceInternal` (src/util/String.cpp) restarts each search at `prev`, and moves `prev`
    forward by the length of the substitute only, whatever the position of the match was. It
    therefore revisits text it has already produced. This module models that loop as it is,
    works out in closed form what it makes of backticks, and shows what survives. */
module Replace {
  import opened Strings

  const TICK: char := '`'

  function Ticks(n: nat): (s: string)
    ensures |s| == n && forall i :: 0 <= i < n ==> s[i] == TICK
  {
    if n == 0 then [] else [TICK] + Ticks(n - 1)
  }

  // ---------- the loop ----------

  /** The text the loop leaves behind, described by its unread suffix `u`: substitute the first
      match, let the next `|subst|` characters pass, and go on with the rest. */
  function Replaced(u: string, substr: string, subst: string): string
    requires substr != []
    decreases |u|
  {
    match Find(u, substr, 0)
    case None => u
    case Some(k) =>
      var v := Splice(u, k, |substr|, subst);
      v[..|subst|] + Replaced(v[|subst|..], substr, subst)
  }

  /** `text.replace(pos, n, subst)`. */
  function Splice(text: string, pos: nat, n: nat, subst: string): (r: string)
    requires pos + n <= |text|
    ensures |r| == |text| - n + |subst|
  {
    text[..pos] + subst + text[pos + n..]
  }

  /** `replace(str, substr, subst)`; an empty `substr` makes the original loop for ever. */
  method ReplaceInternal(str: string, substr: string, subst: string) returns (text: string)
    requires substr != []
    ensures text == Replaced(str, substr, subst)
  {
    hide Replaced, Splice, Find;
    text := str;
    var prev: nat := 0;
    assert text[..0] == [] && text[0..] == str;
    var found := Find(text, substr, prev);
    while found.Some?
      invariant prev <= |text| && found == Find(text, substr, prev)
      invariant Outcome(text, prev, substr, subst) == Replaced(str, substr, subst)
      decreases |text| - prev
    {
      hide Outcome;
      Turn(text, substr, subst, prev, found.value);
      text := Splice(text, found.value, |substr|, subst);
      prev := prev + |subst|;
      found := Find(text, substr, prev);
    }
    LastTurn(text, substr, subst, prev);
  }

  /** What the loop will return from here: the part behind `prev` is settled. */
  ghost function Outcome(text: string, prev: nat, substr: string, subst: string): string
    requires substr != [] && prev <= |text|
  {
    text[..prev] + Replaced(text[prev..], substr, subst)
  }

  lemma Turn(text: string, substr: string, subst: string, prev: nat, pos: nat)
    requires substr != [] && Find(text, substr, prev) == Some(pos)
    ensures var next := Splice(text, pos, |substr|, subst);
            |next| >= prev + |subst|
            && Outcome(text, prev, substr, subst) == Outcome(next, prev + |subst|, substr, subst)
  {
    hide Replaced, Find;
    FindShifted(text, substr, prev, prev);
    var next := Splice(text, pos, |substr|, subst);
    var v := next[prev..];
    SpliceInSuffix(text, prev, pos, |substr|, subst);
    hide Splice;
    PassOver(text[..prev], v, |subst|, Replaced(v[|subst|..], substr, subst));
    assert next == text[..prev] + v;
    Unfold(text[prev..], substr, subst, pos - prev, v);
  }

  lemma LastTurn(text: string, substr: string, subst: string, prev: nat)
    requires substr != [] && prev <= |text| && Find(text, substr, prev) == None
    ensures Outcome(text, prev, substr, subst) == text
  {
    FindShifted(text, substr, prev, prev);
  }

  lemma Unfold(u: string, substr: string, subst: string, k: nat, v: string)
    requires substr != [] && Find(u, substr, 0) == Some(k)
    requires v == Splice(u, k, |substr|, subst)
    ensures Replaced(u, substr, subst) == v[..|subst|] + Replaced(v[|subst|..], substr, subst)
  {
  }

  lemma SpliceInSuffix(text: string, prev: nat, pos: nat, n: nat, subst: string)
    requires prev <= pos <= |text| - n
    ensures var next := Splice(text, pos, n, subst);
            next[prev..] == Splice(text[prev..], pos - prev, n, subst) && next[..prev] == text[..prev]
  {
  }

  lemma PassOver(a: string, v: string, n: nat, rest: string)
    requires n <= |v|
    ensures (a + v)[|a| + n..] == v[n..]
    ensures a + (v[..n] + rest) == (a + v)[..|a| + n] + rest
  {
    assert (a + v)[..|a| + n] == a + v[..n];
  }

  // ---------- what it makes of backticks ----------

  predicate TickFree(s: string) {
    forall i :: 0 <= i < |s| ==> s[i] != TICK
  }

  /** Splits off the longest backtick-free prefix. */
  lemma {:induction false} FirstTick(s: string) returns (d: nat)
    ensures d <= |s| && TickFree(s[..d])
    ensures d < |s| ==> s[d] == TICK
  {
    d := 0;
    while d < |s| && s[d] != TICK
      invariant d <= |s| && TickFree(s[..d])
    {
      d := d + 1;
    }
  }

  /** Correct SQL quoting: every backtick is doubled. */
  function Doubled(s: string): string {
    if s == [] then []
    else (if s[0] == TICK then Ticks(2) else [s[0]]) + Doubled(s[1..])
  }

  /** What the driver produces: a backtick that follows `gap` other characters (since the
      previous backtick or the start) comes out as `gap + 2` backticks. */
  function Stretched(s: string, gap: nat := 0): string {
    if s == [] then []
    else if s[0] == TICK then Ticks(gap + 2) + Stretched(s[1..], 0)
    else [s[0]] + Stretched(s[1..], gap + 1)
  }

  /** Every backtick precedes every other character. */
  predicate TicksLead(s: string) {
    forall i, j :: 0 <= i < j < |s| && s[j] == TICK ==> s[i] == TICK
  }

  /** A gap, a run of `m` backticks, and what follows. */
  function Run(g: string, m: nat, t: string): string {
    g + Ticks(m) + t
  }

  lemma {:induction false} StretchedAtTick(g: string, t: string, gap: nat)
    requires TickFree(g)
    ensures Stretched(Run(g, 1, t), gap) == Run(g, gap + |g| + 2, Stretched(t))
  {
    var s := Run(g, 1, t);
    if g == [] {
      assert s[0] == TICK && s[1..] == t;
    } else {
      assert s[0] == g[0] && s[1..] == Run(g[1..], 1, t);
      StretchedAtTick(g[1..], t, gap + 1);
    }
  }

  lemma {:induction false} StretchedTickFree(s: string, gap: nat)
    requires TickFree(s)
    ensures Stretched(s, gap) == s
  {
    if s != [] { StretchedTickFree(s[1..], gap + 1); }
  }

  lemma FindRun(g: string, m: nat, t: string, k: nat)
    requires TickFree(g) && 1 <= k <= m
    ensures Find(Run(g, m, t), Ticks(k), 0) == Some(|g|)
  {
    var u := Run(g, m, t);
    assert u[|g|..|g| + k] == Ticks(k);
    forall i: nat | i < |g| ensures !OccursAt(u, Ticks(k), i) {
      assert u[i] == g[i] && Ticks(k)[0] == TICK;
    }
    FindIs(u, Ticks(k), 0, |g|);
  }

  lemma FindNoRun(s: string, k: nat)
    requires TickFree(s) && 1 <= k
    ensures Find(s, Ticks(k), 0) == None
  {
    assert Ticks(k)[0] == TICK;
    FindFirst(s, Ticks(k), 0);
  }

  lemma {:induction false} TicksAdd(m: nat, n: nat)
    ensures Ticks(m) + Ticks(n) == Ticks(m + n)
  {
    if m > 0 { TicksAdd(m - 1, n); }
  }

  /** Substituting `l` backticks for the first `k` of a run leaves a run. */
  lemma SpliceRun(g: string, m: nat, t: string, k: nat, l: nat)
    requires k <= m
    ensures Splice(Run(g, m, t), |g|, k, Ticks(l)) == Run(g, m - k + l, t)
  {
    assert Run(g, m, t)[|g| + k..] == Ticks(m - k) + t;
    TicksAdd(l, m - k);
  }

  lemma CutGap(g: string, c: nat, m: nat, t: string)
    requires c <= |g|
    ensures Run(g, m, t) == g[..c] + Run(g[c..], m, t)
  {
    assert g == g[..c] + g[c..];
  }

  lemma CutTicks(g: string, k: nat, n: nat, m: nat, t: string)
    requires m == k + n
    ensures Run(g, m, t) == (g + Ticks(k)) + Run([], n, t)
  {
    TicksAdd(k, n);
    hide Ticks;
  }

  lemma RunOfNone(t: string)
    ensures Run([], 0, t) == t
  {
  }

  /** One turn on a run: the substitute makes it `head + tail`, and `head` is passed over. */
  lemma TurnOnRun(g: string, m: nat, t: string, k: nat, l: nat, head: string, tail: string)
    requires TickFree(g) && 1 <= k <= m && |head| == l
    requires Run(g, m - k + l, t) == head + tail
    ensures Replaced(Run(g, m, t), Ticks(k), Ticks(l)) == head + Replaced(tail, Ticks(k), Ticks(l))
  {
    FindRun(g, m, t, k);
    SpliceRun(g, m, t, k, l);
    hide Run;
    Unfold(Run(g, m, t), Ticks(k), Ticks(l), |g|, head + tail);
    assert (head + tail)[..l] == head && (head + tail)[l..] == tail;
  }

  /** A run of `m` backticks after a gap of `|g|` characters comes out `|g| + 2 * m` long. */
  lemma {:induction false} StretchRun(g: string, m: nat, t: string)
    requires TickFree(g) && 1 <= m
    ensures Replaced(Run(g, m, t), Ticks(1), Ticks(2))
         == Run(g, |g| + 2 * m, Replaced(t, Ticks(1), Ticks(2)))
    decreases |g|, m
  {
    hide Replaced, Run, Ticks;
    var rest := Replaced(t, Ticks(1), Ticks(2));
    if |g| >= 2 {
      CutGap(g, 2, m + 1, t);
      TurnOnRun(g, m, t, 1, 2, g[..2], Run(g[2..], m + 1, t));
      StretchRun(g[2..], m + 1, t);
      CutGap(g, 2, |g| + 2 * m, rest);
    } else {
      var k, n := 2 - |g|, m + |g| - 1;
      CutTicks(g, k, n, m + 1, t);
      TurnOnRun(g, m, t, 1, 2, g + Ticks(k), Run([], n, t));
      if n > 0 { StretchRun([], n, t); } else { RunOfNone(t); RunOfNone(rest); }
      CutTicks(g, k, 2 * n, |g| + 2 * m, rest);
    }
  }

  /** Halving a run that stretching made shortens it to the one backtick it came from. */
  lemma {:induction false} CollapseRun(g: string, t: string)
    requires TickFree(g)
    ensures Replaced(Run(g, |g| + 2, t), Ticks(2), Ticks(1))
         == Run(g, 1, Replaced(t, Ticks(2), Ticks(1)))
  {
    hide Replaced, Run, Ticks;
    var rest := Replaced(t, Ticks(2), Ticks(1));
    if g != [] {
      CutGap(g, 1, |g| + 1, t);
      TurnOnRun(g, |g| + 2, t, 2, 1, g[..1], Run(g[1..], |g| + 1, t));
      CollapseRun(g[1..], t);
      CutGap(g, 1, 1, rest);
    } else {
      CutTicks([], 1, 0, 1, t);
      RunOfNone(t);
      TurnOnRun([], 2, t, 2, 1, [] + Ticks(1), t);
      CutTicks([], 1, 0, 1, rest);
      RunOfNone(rest);
    }
  }

  /** The closed form of the driver's doubling. */
  lemma {:induction false} DoublingStretches(s: string)
    ensures Replaced(s, Ticks(1), Ticks(2)) == Stretched(s)
    decreases |s|
  {
    var d := FirstTick(s);
    if d == |s| {
      assert s == s[..d];
      FindNoRun(s, 1);
      StretchedTickFree(s, 0);
    } else {
      var g, t := s[..d], s[d + 1..];
      assert s == Run(g, 1, t);
      StretchRun(g, 1, t);
      StretchedAtTick(g, t, 0);
      DoublingStretches(t);
    }
  }

  /** The faulty halving undoes the faulty doubling exactly. */
  lemma {:induction false} HalvingCollapses(s: string)
    ensures Replaced(Stretched(s), Ticks(2), Ticks(1)) == s
    decreases |s|
  {
    var d := FirstTick(s);
    if d == |s| {
      assert s == s[..d];
      FindNoRun(s, 2);
      StretchedTickFree(s, 0);
    } else {
      var g, t := s[..d], s[d + 1..];
      assert s == Run(g, 1, t);
      StretchedAtTick(g, t, 0);
      CollapseRun(g, Stretched(t));
      HalvingCollapses(t);
    }
  }

  // ---------- stretched against doubled ----------

  lemma {:induction false} DoubledSplits(s: string, t: string)
    ensures Doubled(s + t) == Doubled(s) + Doubled(t)
  {
    if s == [] {
      assert s + t == t;
    } else {
      assert (s + t)[1..] == s[1..] + t;
      DoubledSplits(s[1..], t);
    }
  }

  lemma {:induction false} DoubledTickFree(s: string)
    requires TickFree(s)
    ensures Doubled(s) == s
  {
    if s != [] { DoubledTickFree(s[1..]); }
  }

  /** The driver's text is the correct one exactly when all the backticks come first. */
  lemma {:induction false} StretchedIsDoubled(s: string, gap: nat)
    ensures |Stretched(s, gap)| >= |Doubled(s)|
    ensures Stretched(s, gap) == Doubled(s) <==> TickFree(s) || (gap == 0 && TicksLead(s))
  {
    if s != [] {
      var t := s[1..];
      assert s == [s[0]] + t;
      if s[0] == TICK {
        StretchedIsDoubled(t, 0);
        if gap == 0 {
          assert Stretched(s, 0)[2..] == Stretched(t) && Doubled(s)[2..] == Doubled(t);
          LeadingTick(t);
        } else {
          assert |Stretched(s, gap)| > |Doubled(s)|;
        }
      } else {
        StretchedIsDoubled(t, gap + 1);
        assert Stretched(s, gap)[1..] == Stretched(t, gap + 1) && Doubled(s)[1..] == Doubled(t);
      }
    }
  }

  lemma LeadingTick(t: string)
    ensures TicksLead([TICK] + t) <==> TicksLead(t)
    ensures TickFree(t) ==> TicksLead(t)
  {
    var s := [TICK] + t;
    assert forall i :: 0 <= i < |t| ==> t[i] == s[i + 1];
    if TicksLead(t) {
      forall i, j | 0 <= i < j < |s| && s[j] == TICK ensures s[i] == TICK {
        if i > 0 { assert t[j - 1] == TICK && t[i - 1] == s[i]; }
      }
    }
  }

  // ---------- MariaDbConnection::quoteIdentifier, unquoteIdentifier ----------

  function QuoteIdentifier(s: string): string {
    [TICK] + Replaced(s, Ticks(1), Ticks(2)) + [TICK]
  }

  function UnquoteIdentifier(s: string): string {
    if |s| >= 2 && s[0] == TICK && s[|s| - 1] == TICK
    then Replaced(s[1..|s| - 1], Ticks(2), Ticks(1))
    else s
  }

  /** Correctly quoted text, as the server prints and reads it. */
  function Quoted(s: string): string {
    [TICK] + Doubled(s) + [TICK]
  }

  lemma QuoteIdentifierText(s: string)
    ensures QuoteIdentifier(s) == [TICK] + Stretched(s) + [TICK]
  {
    DoublingStretches(s);
  }

  /** `unquoteIdentifier(quoteIdentifier(s))` is `s`, for every string. */
  lemma UnquoteUndoesQuote(s: string)
    ensures UnquoteIdentifier(QuoteIdentifier(s)) == s
  {
    QuoteIdentifierText(s);
    var q := QuoteIdentifier(s);
    assert q[1..|q| - 1] == Stretched(s);
    HalvingCollapses(s);
  }

  /** `quoteIdentifier` writes correct SQL exactly when no backtick follows another character. */
  lemma QuoteIdentifierCorrectIff(s: string)
    ensures QuoteIdentifier(s) == Quoted(s) <==> TicksLead(s)
  {
    QuoteIdentifierText(s);
    StretchedIsDoubled(s, 0);
    var q, r := QuoteIdentifier(s), Quoted(s);
    assert q[1..|q| - 1] == Stretched(s) && r[1..|r| - 1] == Doubled(s);
  }

  /** The smallest name it gets wrong. */
  lemma QuoteIdentifierWrong()
    ensures QuoteIdentifier("a`b") == "`a```b`" && Quoted("a`b") == "`a``b`"
  {
    QuoteIdentifierText("a`b");
    assert "a`b"[1..] == "`b" && "`b"[1..] == "b" && "b"[1..] == "";
    assert Stretched("b") == "b" && Doubled("b") == "b";
    assert Ticks(2) == "``" && Ticks(3) == "```";
    assert Stretched("`b", 1) == "```b" && Doubled("`b") == "``b";
  }

  // ---------- MariaDbStatement::isSimpleIdentifier, enquoteIdentifier ----------

  predicate IsWordChar(c: char) {
    'a' <= c <= 'z' || 'A' <= c <= 'Z' || IsDigit(c) || c == '$' || c == '_'
  }

  predicate Enclosed(s: string) {
    s != [] && s[0] == TICK && s[|s| - 1] == TICK
  }

  predicate Simple(s: string) {
    Enclosed(s) && forall i :: 1 <= i < |s| - 1 ==> IsWordChar(s[i])
  }

  method IsSimpleIdentifier(str: string) returns (simple: bool)
    ensures simple <==> Simple(str)
  {
    if str != [] && str[0] == TICK && str[|str| - 1] == TICK {
      var i := 1;
      while i < |str| - 1
        invariant 1 <= i
        invariant forall k :: 1 <= k < i && k < |str| - 1 ==> IsWordChar(str[k])
      {
        if !IsWordChar(str[i]) { return false; }
        i := i + 1;
      }
      return true;
    }
    return false;
  }

  /** `enquoteIdentifier` on a non-empty name (`front()` of an empty one is undefined). Its test
      for an embedded NUL searches for the characters of an empty C string and so never fires. */
  method EnquoteIdentifier(identifier: string, alwaysQuote: bool) returns (r: string)
    requires identifier != []
    ensures !Enclosed(identifier) ==> r == QuoteIdentifier(identifier)
    ensures Enclosed(identifier) && !Simple(identifier)
            ==> r == QuoteIdentifier(identifier[1..|identifier| - 1])
    ensures Simple(identifier) ==> r == if alwaysQuote then [TICK] + identifier + [TICK] else identifier
  {
    var simple := IsSimpleIdentifier(identifier);
    if simple {
      return if alwaysQuote then [TICK] + identifier + [TICK] else identifier;
    }
    var result := identifier;
    if result[0] == TICK && result[|result| - 1] == TICK {
      result := result[1..|result| - 1];
    }
    var body := ReplaceInternal(result, Ticks(1), Ticks(2));
    return [TICK] + body + [TICK];
  }
}
