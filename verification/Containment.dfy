/** Where a search text can occur in a concatenation: the facts that locate the referential
    actions `getImportedKeys` searches a whole clause for. */
module Containment {
  import opened Strings
  import opened Replace

  lemma FoundIff(text: string, needle: string)
    ensures Find(text, needle, 0).Some? <==> Contains(text, needle)
  {
    FindFirst(text, needle, 0);
  }

  /** The last `k` characters of `x` and the first ones of `y` together spell the needle. */
  ghost predicate Straddles(x: string, y: string, needle: string, k: nat) {
    && 0 < k < |needle| && k <= |x| && |needle| - k <= |y|
    && x[|x| - k..] == needle[..k] && y[..|needle| - k] == needle[k..]
  }

  lemma OccurrenceInParts(x: string, y: string, needle: string, i: nat)
    requires OccursAt(x + y, needle, i) && needle != []
    ensures || OccursAt(x, needle, i) || (|x| <= i && OccursAt(y, needle, i - |x|))
            || (i < |x| && Straddles(x, y, needle, |x| - i))
  {
    var n := (x + y)[i..i + |needle|];
    if i + |needle| <= |x| {
      assert n == x[i..i + |needle|];
    } else if |x| <= i {
      assert n == y[i - |x|..i - |x| + |needle|];
    } else {
      var k := |x| - i;
      assert n == x[i..] + y[..|needle| - k];
    }
  }

  lemma SplitContains(x: string, y: string, needle: string)
    requires needle != [] && forall k: nat :: !Straddles(x, y, needle, k)
    ensures Contains(x + y, needle) <==> Contains(x, needle) || Contains(y, needle)
  {
    forall i: nat | OccursAt(x + y, needle, i) ensures Contains(x, needle) || Contains(y, needle) {
      OccurrenceInParts(x, y, needle, i);
    }
    if i: nat :| OccursAt(x, needle, i) {
      assert (x + y)[i..i + |needle|] == x[i..i + |needle|];
      assert OccursAt(x + y, needle, i);
    }
    if i: nat :| OccursAt(y, needle, i) {
      assert (x + y)[i + |x|..i + |x| + |needle|] == y[i..i + |needle|];
      assert OccursAt(x + y, needle, i + |x|);
    }
  }

  /** What a straddling occurrence says about the characters on either side. */
  lemma StraddledCharacters(x: string, y: string, needle: string, k: nat)
    ensures Straddles(x, y, needle, k) ==>
              && needle[k] == y[0] && needle[k - 1] == x[|x| - 1]
              && (k + 1 < |needle| ==> needle[k + 1] == y[1])
  {
    if Straddles(x, y, needle, k) {
      assert needle[k] == needle[k..][0] && needle[k - 1] == needle[..k][k - 1];
      assert k + 1 < |needle| ==> needle[k + 1] == needle[k..][1];
    }
  }

  lemma TooShort(x: string, needle: string)
    requires |x| < |needle|
    ensures !Contains(x, needle)
  {
  }

  /** A needle without backticks never reaches across one. */
  lemma SplitAtTick(x: string, y: string, needle: string)
    requires needle != [] && TickFree(needle)
    ensures Contains(x + ([TICK] + y), needle) <==> Contains(x, needle) || Contains(y, needle)
  {
    forall k: nat ensures !Straddles(x, [TICK] + y, needle, k) {
      StraddledCharacters(x, [TICK] + y, needle, k);
    }
    SplitContains(x, [TICK] + y, needle);
    forall k: nat ensures !Straddles([TICK], y, needle, k) {
      StraddledCharacters([TICK], y, needle, k);
    }
    SplitContains([TICK], y, needle);
    forall i: nat ensures !OccursAt([TICK], needle, i) {
      assert needle[0] != TICK;
    }
  }

  /** Doubling backticks neither makes nor breaks occurrences of such a needle. */
  lemma {:induction false} ContainsInDoubled(n: string, needle: string)
    requires needle != [] && TickFree(needle)
    ensures Contains(Doubled(n), needle) <==> Contains(n, needle)
    decreases |n|
  {
    var d := FirstTick(n);
    if d == |n| {
      assert n == n[..d];
      DoubledTickFree(n);
    } else {
      var g, t := n[..d], n[d + 1..];
      assert n == g + ([TICK] + t);
      DoubledSplits(g, [TICK] + t);
      DoubledTickFree(g);
      assert ([TICK] + t)[1..] == t;
      assert Doubled([TICK] + t) == Ticks(2) + Doubled(t) == [TICK] + ([] + ([TICK] + Doubled(t)));
      hide Doubled;
      SplitAtTick(g, t, needle);
      SplitAtTick(g, [] + ([TICK] + Doubled(t)), needle);
      SplitAtTick([], Doubled(t), needle);
      TooShort([], needle);
      ContainsInDoubled(t, needle);
    }
  }

  /** Text, a quoted name, more text: the needle is in the first, the name or the last. */
  lemma SplitAtName(lit: string, n: string, rest: string, needle: string)
    requires needle != [] && TickFree(needle)
    ensures Contains(lit + (Quoted(n) + rest), needle)
        <==> Contains(lit, needle) || Contains(n, needle) || Contains(rest, needle)
  {
    assert Quoted(n) + rest == [TICK] + (Doubled(n) + ([TICK] + rest));
    SplitAtTick(lit, Doubled(n) + ([TICK] + rest), needle);
    SplitAtTick(Doubled(n), rest, needle);
    ContainsInDoubled(n, needle);
  }
}
