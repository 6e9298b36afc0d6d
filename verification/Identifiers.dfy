/** The identifier parser of `MariaDbDatabaseMetaData` (src/MariaDbDatabaseMetaData.cpp:78-168),
    its grammar, and the proof that the two agree. */
module Identifiers {
  import opened Strings
  import opened Replace

  datatype Identifier = Identifier(schema: string, name: string)

  const NO_IDENTIFIER := Identifier("", "")

  /** `ParseException` with its position, or the `std::out_of_range` that `at()` raises. */
  datatype Failure = ParseError(at: nat) | OutOfRange

  datatype Parsed<+T> = Parsed(pos: nat, value: T) | Broken(error: Failure)

  // ---------- skipWhite, skipKeyword ----------

  function SkipWhite(part: string, startPos: nat): (pos: nat)
    ensures pos <= |part| && (startPos <= |part| ==> startPos <= pos)
    ensures pos < |part| ==> !IsSpace(part[pos])
    ensures forall i :: startPos <= i < pos ==> IsSpace(part[i])
    decreases |part| - startPos
  {
    if startPos >= |part| then |part|
    else if IsSpace(part[startPos]) then SkipWhite(part, startPos + 1)
    else startPos
  }

  method SkipWhiteLoop(part: string, startPos: nat) returns (pos: nat)
    ensures pos == SkipWhite(part, startPos)
  {
    var i := startPos;
    while i < |part|
      invariant SkipWhite(part, startPos) == SkipWhite(part, i)
    {
      if !IsSpace(part[i]) { return i; }
      i := i + 1;
    }
    return |part|;
  }

  lemma {:induction false} SkipsTo(part: string, startPos: nat, pos: nat)
    requires startPos <= pos < |part| && !IsSpace(part[pos])
    requires forall i :: startPos <= i < pos ==> IsSpace(part[i])
    ensures SkipWhite(part, startPos) == pos
    decreases pos - startPos
  {
    if startPos < pos { SkipsTo(part, startPos + 1, pos); }
  }

  /** `skipKeyword` from position `i` of the keyword on. */
  function MatchFrom(part: string, pos: nat, keyword: string, i: nat): (r: Parsed<()>)
    requires i <= |keyword|
    decreases |keyword| - i
  {
    if i == |keyword| then Parsed(pos, ())
    else if pos >= |part| then Broken(OutOfRange)
    else if part[pos] != keyword[i] then Broken(ParseError(pos))
    else MatchFrom(part, pos + 1, keyword, i + 1)
  }

  function SkipKeyword(part: string, startPos: nat, keyword: string): Parsed<()> {
    MatchFrom(part, SkipWhite(part, startPos), keyword, 0)
  }

  method SkipKeywordLoop(part: string, startPos: nat, keyword: string) returns (r: Parsed<()>)
    ensures r == SkipKeyword(part, startPos, keyword)
  {
    var pos: nat := SkipWhiteLoop(part, startPos);
    var i: nat := 0;
    while i < |keyword|
      invariant i <= |keyword|
      invariant SkipKeyword(part, startPos, keyword) == MatchFrom(part, pos, keyword, i)
    {
      if pos >= |part| { return Broken(OutOfRange); }
      if part[pos] != keyword[i] { return Broken(ParseError(pos)); }
      i, pos := i + 1, pos + 1;
    }
    return Parsed(pos, ());
  }

  /** It succeeds exactly on the keyword, and stops right behind it. */
  lemma {:induction false} MatchesKeyword(part: string, pos: nat, keyword: string, i: nat)
    requires i <= |keyword| && pos <= |part|
    ensures var r := MatchFrom(part, pos, keyword, i);
            (r.Parsed? <==> OccursAt(part, keyword[i..], pos))
            && (r.Parsed? ==> r == Parsed(pos + |keyword| - i, ()))
    decreases |keyword| - i
  {
    if i < |keyword| {
      assert keyword[i..] == [keyword[i]] + keyword[i + 1..];
      OccursSplit(part, [keyword[i]], keyword[i + 1..], pos);
      if pos < |part| && part[pos] == keyword[i] {
        assert part[pos..pos + 1] == [keyword[i]];
        MatchesKeyword(part, pos + 1, keyword, i + 1);
      }
    }
  }

  // ---------- occurrences of concatenations ----------

  lemma OccursSplit(text: string, a: string, b: string, i: nat)
    ensures OccursAt(text, a + b, i) <==> OccursAt(text, a, i) && OccursAt(text, b, i + |a|)
    ensures OccursAt(text, a, i) && a != [] ==> text[i] == a[0]
  {
    if OccursAt(text, a + b, i) {
      assert text[i..i + |a|] == text[i..i + |a + b|][..|a|];
      assert text[i + |a|..i + |a + b|] == text[i..i + |a + b|][|a|..];
    }
    if OccursAt(text, a, i) && OccursAt(text, b, i + |a|) {
      assert text[i..i + |a + b|] == text[i..i + |a|] + text[i + |a|..i + |a + b|];
    }
    if OccursAt(text, a, i) && a != [] { assert text[i..i + |a|][0] == text[i]; }
  }

  // ---------- parseIdentifier ----------

  /** The scanning loop: `quotes` backticks are pending behind the text collected in `sb`. */
  function Scan(part: string, pos: nat, quotes: nat, sb: string, startPos: nat, id: Identifier)
    : (r: Parsed<Identifier>)
    ensures r.Parsed? ==> pos <= r.pos < |part|
    decreases |part| - pos
  {
    if pos >= |part| then Broken(ParseError(startPos))
    else if part[pos] == TICK then Scan(part, pos + 1, quotes + 1, sb, startPos, id)
    else
      var sb' := sb + Ticks(quotes / 2);
      if quotes % 2 == 0 then Scan(part, pos + 1, 0, sb' + [part[pos]], startPos, id)
      else if part[pos] != '.' then Parsed(pos, id.(name := sb'))
      else if id.schema != "" then Broken(ParseError(pos))
      else ParseIdentifier(part, pos + 1, id.(schema := sb'))
  }

  /** Every success lies strictly beyond the start and inside the text. */
  function ParseIdentifier(part: string, startPos: nat, id: Identifier): (r: Parsed<Identifier>)
    ensures r.Parsed? ==> startPos < r.pos < |part|
    decreases |part| - startPos
  {
    var pos := SkipWhite(part, startPos);
    if pos >= |part| then Broken(OutOfRange)
    else if part[pos] != TICK then Broken(ParseError(pos))
    else Scan(part, pos + 1, 0, "", startPos, id)
  }

  method ParseIdentifierLoop(part: string, startPos: nat, id: Identifier)
    returns (r: Parsed<Identifier>)
    ensures r == ParseIdentifier(part, startPos, id)
    decreases |part| - startPos
  {
    var pos := SkipWhiteLoop(part, startPos);
    if pos >= |part| { return Broken(OutOfRange); }
    if part[pos] != TICK { return Broken(ParseError(pos)); }
    pos := pos + 1;
    var sb, quotes := "", 0;
    while pos < |part|
      invariant startPos < pos <= |part| && 0 <= quotes
      invariant ParseIdentifier(part, startPos, id) == Scan(part, pos, quotes, sb, startPos, id)
    {
      var ch := part[pos];
      if ch == TICK {
        quotes := quotes + 1;
      } else {
        sb := AppendTicks(sb, quotes / 2);
        if quotes % 2 == 1 {
          if ch == '.' {
            if id.schema != "" { return Broken(ParseError(pos)); }
            r := ParseIdentifierLoop(part, pos + 1, id.(schema := sb));
            return;
          }
          return Parsed(pos, id.(name := sb));
        }
        quotes := 0;
        sb := sb + [ch];
      }
      pos := pos + 1;
    }
    return Broken(ParseError(startPos));
  }

  method AppendTicks(sb: string, n: nat) returns (r: string)
    ensures r == sb + Ticks(n)
  {
    r := sb;
    for j := 0 to n
      invariant r == sb + Ticks(j)
    {
      TicksAdd(j, 1);
      assert Ticks(1) == [TICK];
      r := r + [TICK];
    }
  }

  // ---------- the grammar ----------

  /** `n`, correctly quoted, stands at `start` and its closing backtick ends at `end`. */
  ghost predicate NameAt(part: string, start: nat, n: string, end: nat) {
    && OccursAt(part, Quoted(n), start)
    && end == start + |Quoted(n)|
    && end < |part| && part[end] != TICK
  }

  /** `[schema .] name`, each part after optional white space, read into `id0` gives `id`.
      (An empty schema leaves `id0.schema` empty, so another one may follow.) */
  ghost predicate Reads(part: string, from: nat, to: nat, id0: Identifier, id: Identifier)
    decreases |part| - from
  {
    exists n: string, end: nat :: NameAt(part, SkipWhite(part, from), n, end) && from < end
      && if part[end] == '.'
         then id0.schema == "" && Reads(part, end + 1, to, id0.(schema := n), id)
         else to == end && id == id0.(name := n)
  }

  lemma ReadsName(part: string, from: nat, to: nat, id0: Identifier, id: Identifier) returns (n: string, end: nat)
    requires Reads(part, from, to, id0, id)
    ensures NameAt(part, SkipWhite(part, from), n, end) && from < end
    ensures if part[end] == '.' then id0.schema == "" && Reads(part, end + 1, to, id0.(schema := n), id)
            else to == end && id == id0.(name := n)
  {
    n, end :| NameAt(part, SkipWhite(part, from), n, end) && from < end
      && if part[end] == '.'
         then id0.schema == "" && Reads(part, end + 1, to, id0.(schema := n), id)
         else to == end && id == id0.(name := n);
  }

  lemma ReadsFrom(part: string, from: nat, to: nat, id0: Identifier, id: Identifier, n: string, end: nat)
    requires NameAt(part, SkipWhite(part, from), n, end) && from < end
    requires if part[end] == '.' then id0.schema == "" && Reads(part, end + 1, to, id0.(schema := n), id)
             else to == end && id == id0.(name := n)
    ensures Reads(part, from, to, id0, id)
  {
  }

  lemma {:induction false} PendingPairs(part: string, pos: nat, q: nat, sb: string, startPos: nat, id: Identifier)
    requires q % 2 == 0
    ensures Scan(part, pos, q, sb, startPos, id) == Scan(part, pos, 0, sb + Ticks(q / 2), startPos, id)
  {
    PendingPairsFrom(part, pos, q, 0, sb, startPos, id);
  }

  lemma {:induction false} PendingPairsFrom(part: string, pos: nat, q: nat, k: nat, sb: string, startPos: nat, id: Identifier)
    requires q % 2 == 0
    ensures Scan(part, pos, q + k, sb, startPos, id) == Scan(part, pos, k, sb + Ticks(q / 2), startPos, id)
    decreases |part| - pos
  {
    if pos < |part| {
      if part[pos] == TICK {
        PendingPairsFrom(part, pos + 1, q, k + 1, sb, startPos, id);
      } else {
        TicksAdd(q / 2, k / 2);
        assert (q + k) / 2 == q / 2 + k / 2 && (q + k) % 2 == k % 2;
        assert sb + Ticks((q + k) / 2) == sb + Ticks(q / 2) + Ticks(k / 2);
      }
    }
  }

  lemma ScanPlain(part: string, pos: nat, sb: string, startPos: nat, id: Identifier)
    requires pos < |part| && part[pos] != TICK
    ensures Scan(part, pos, 0, sb, startPos, id) == Scan(part, pos + 1, 0, sb + [part[pos]], startPos, id)
  {
    assert sb + Ticks(0) + [part[pos]] == sb + [part[pos]];
  }

  lemma ScanPair(part: string, pos: nat, sb: string, startPos: nat, id: Identifier)
    requires pos + 1 < |part| && part[pos] == part[pos + 1] == TICK
    ensures Scan(part, pos, 0, sb, startPos, id) == Scan(part, pos + 2, 0, sb + [TICK], startPos, id)
  {
    PendingPairs(part, pos + 2, 2, sb, startPos, id);
    assert Ticks(1) == [TICK];
  }

  /** Completeness of the loop: a quoted name is collected, whatever backticks it holds. */
  lemma {:induction false} ScanReads(part: string, pos: nat, sb: string, n: string, startPos: nat, id: Identifier)
    requires OccursAt(part, Doubled(n) + [TICK], pos)
    ensures Scan(part, pos, 0, sb, startPos, id)
         == Scan(part, pos + |Doubled(n)| + 1, 1, sb + n, startPos, id)
    decreases |n|
  {
    if n == [] {
      OccursSplit(part, [TICK], [], pos);
      assert sb + n == sb;
    } else {
      var c, m := n[0], n[1..];
      DoubledOccurs(part, n, pos);
      if c == TICK { ScanPair(part, pos, sb, startPos, id); } else { ScanPlain(part, pos, sb, startPos, id); }
      hide Scan;
      ScanReads(part, pos + (if c == TICK then 2 else 1), sb + [c], m, startPos, id);
      assert sb + [c] + m == sb + n;
    }
  }

  lemma DoubledOccurs(part: string, n: string, pos: nat)
    requires n != [] && OccursAt(part, Doubled(n) + [TICK], pos)
    ensures pos + 1 < |part| && part[pos] == n[0] && (n[0] == TICK ==> part[pos + 1] == TICK)
    ensures OccursAt(part, Doubled(n[1..]) + [TICK], pos + if n[0] == TICK then 2 else 1)
  {
    var first := if n[0] == TICK then Ticks(2) else [n[0]];
    assert Doubled(n) + [TICK] == first + (Doubled(n[1..]) + [TICK]);
    hide Doubled;
    OccursSplit(part, first, Doubled(n[1..]) + [TICK], pos);
    assert part[pos..pos + |first|] == first;
    if n[0] == TICK { assert part[pos..pos + 2][1] == part[pos + 1]; }
  }

  lemma NameScanned(part: string, from: nat, n: string, end: nat, id: Identifier)
    requires NameAt(part, SkipWhite(part, from), n, end)
    ensures from < end
    ensures ParseIdentifier(part, from, id) == Scan(part, end, 1, n, from, id)
  {
    var start := SkipWhite(part, from);
    assert Quoted(n) == [TICK] + (Doubled(n) + [TICK]);
    OccursSplit(part, [TICK], Doubled(n) + [TICK], start);
    ScanReads(part, start + 1, "", n, from, id);
    assert "" + n == n;
  }

  /** Soundness of the loop: what it collected was there, correctly quoted. */
  lemma {:induction false} ScanFound(part: string, pos: nat, q: nat, sb: string, startPos: nat, id: Identifier)
    returns (m: string, end: nat)
    requires Scan(part, pos, q, sb, startPos, id).Parsed?
    requires q <= pos <= |part| && OccursAt(part, Ticks(q), pos - q)
    ensures OccursAt(part, Doubled(m) + [TICK], pos - q)
    ensures end == pos - q + |Doubled(m)| + 1 && pos <= end < |part| && part[end] != TICK
    ensures Scan(part, pos, q, sb, startPos, id) == Scan(part, end, 1, sb + m, startPos, id)
    decreases |part| - pos
  {
    ScanTurn(part, pos, q, sb, startPos, id);
    hide Scan;
    if part[pos] == TICK {
      OneMoreTick(part, pos, q);
      m, end := ScanFound(part, pos + 1, q + 1, sb, startPos, id);
    } else if q % 2 == 1 {
      m, end := Ticks(q / 2), pos;
      OddTicksClose(q);
    } else {
      var c, u := part[pos], Ticks(q / 2);
      assert part[pos + 1..pos + 1] == Ticks(0);
      var rest;
      rest, end := ScanFound(part, pos + 1, 0, sb + u + [c], startPos, id);
      m := u + [c] + rest;
      assert sb + u + [c] + rest == sb + m;
      NamePrefixed(part, pos, q, c, rest);
    }
  }

  lemma ScanTurn(part: string, pos: nat, q: nat, sb: string, startPos: nat, id: Identifier)
    requires pos < |part|
    ensures var u := Ticks(q / 2);
            Scan(part, pos, q, sb, startPos, id)
            == if part[pos] == TICK then Scan(part, pos + 1, q + 1, sb, startPos, id)
               else if q % 2 == 0 then Scan(part, pos + 1, 0, sb + u + [part[pos]], startPos, id)
               else Scan(part, pos, 1, sb + u, startPos, id)
  {
    var sb' := sb + Ticks(q / 2);
    assert sb' + Ticks(0) == sb';
  }

  lemma OneMoreTick(part: string, pos: nat, q: nat)
    requires q <= pos < |part| && part[pos] == TICK && OccursAt(part, Ticks(q), pos - q)
    ensures OccursAt(part, Ticks(q + 1), pos - q)
  {
    TicksAdd(q, 1);
    assert Ticks(1) == [TICK];
    OccursSplit(part, Ticks(q), Ticks(1), pos - q);
    assert part[pos..pos + 1] == [TICK];
  }

  lemma OddTicksClose(q: nat)
    requires q % 2 == 1
    ensures Doubled(Ticks(q / 2)) + [TICK] == Ticks(q)
  {
    DoubledTicks(q / 2);
    TicksAdd(q - 1, 1);
    assert Ticks(1) == [TICK];
  }

  lemma NamePrefixed(part: string, pos: nat, q: nat, c: char, rest: string)
    requires q % 2 == 0 && q <= pos < |part| && OccursAt(part, Ticks(q), pos - q)
    requires part[pos] == c != TICK && OccursAt(part, Doubled(rest) + [TICK], pos + 1)
    ensures var m := Ticks(q / 2) + [c] + rest;
            OccursAt(part, Doubled(m) + [TICK], pos - q) && |Doubled(m)| == q + 1 + |Doubled(rest)|
  {
    DoubledPrefixed(q, c, rest);
    var tail := Doubled(rest) + [TICK];
    Regroup3(Ticks(q), [c], Doubled(rest), [TICK]);
    hide Doubled, Ticks;
    OccursSplit(part, [c], tail, pos);
    assert part[pos..pos + 1] == [c];
    hide OccursAt;
    OccursSplit(part, Ticks(q), [c] + tail, pos - q);
  }

  lemma DoubledPrefixed(q: nat, c: char, rest: string)
    requires q % 2 == 0 && c != TICK
    ensures Doubled(Ticks(q / 2) + [c] + rest) == Ticks(q) + ([c] + Doubled(rest))
  {
    var u := Ticks(q / 2);
    DoubledTicks(q / 2);
    DoubledSplits(u + [c], rest);
    DoubledSplits(u, [c]);
    assert [c][1..] == [];
    assert Doubled([c]) == [c];
  }

  lemma {:induction false} DoubledTicks(k: nat)
    ensures Doubled(Ticks(k)) == Ticks(2 * k)
  {
    if k > 0 {
      DoubledTicks(k - 1);
      assert Ticks(k)[1..] == Ticks(k - 1);
      TicksAdd(2, 2 * k - 2);
    }
  }

  lemma NameFound(part: string, from: nat, id: Identifier) returns (n: string, end: nat)
    requires ParseIdentifier(part, from, id).Parsed?
    ensures NameAt(part, SkipWhite(part, from), n, end) && from < end
    ensures ParseIdentifier(part, from, id) == Scan(part, end, 1, n, from, id)
  {
    var start := SkipWhite(part, from);
    assert part[start + 1..start + 1] == Ticks(0);
    n, end := ScanFound(part, start + 1, 0, "", from, id);
    assert "" + n == n;
    assert Quoted(n) == [TICK] + (Doubled(n) + [TICK]);
    OccursSplit(part, [TICK], Doubled(n) + [TICK], start);
    assert part[start..start + 1] == [TICK];
  }

  /** What the scan does at the closing backtick of a name. */
  lemma ScanCloses(part: string, end: nat, n: string, from: nat, id: Identifier)
    requires end < |part| && part[end] != TICK
    ensures Scan(part, end, 1, n, from, id)
         == if part[end] != '.' then Parsed(end, id.(name := n))
            else if id.schema != "" then Broken(ParseError(end))
            else ParseIdentifier(part, end + 1, id.(schema := n))
  {
    assert n + Ticks(0) == n;
  }

  /** The parser accepts exactly the grammar, with the grammar's result and end position. */
  lemma {:induction false} ParsesExactly(part: string, from: nat, to: nat, id0: Identifier, id: Identifier)
    ensures ParseIdentifier(part, from, id0) == Parsed(to, id) <==> Reads(part, from, to, id0, id)
    decreases |part| - from
  {
    hide Scan, ParseIdentifier, Reads, SkipWhite;
    if Reads(part, from, to, id0, id) {
      var n, end := ReadsName(part, from, to, id0, id);
      NameScanned(part, from, n, end, id0);
      ScanCloses(part, end, n, from, id0);
      if part[end] == '.' { ParsesExactly(part, end + 1, to, id0.(schema := n), id); }
    } else if ParseIdentifier(part, from, id0) == Parsed(to, id) {
      var n, end := NameFound(part, from, id0);
      ScanCloses(part, end, n, from, id0);
      if part[end] == '.' { ParsesExactly(part, end + 1, to, id0.(schema := n), id); }
      ReadsFrom(part, from, to, id0, id, n, end);
    }
  }

  // ---------- the printer and the parser ----------

  /** Parsing a correctly quoted name gives it back, positioned behind it. */
  lemma ParsesQuotedName(part: string, from: nat, n: string, id: Identifier)
    requires from <= |part| && OccursAt(part, Quoted(n), SkipWhite(part, from))
    requires var end := SkipWhite(part, from) + |Quoted(n)|;
             end < |part| && part[end] != TICK && part[end] != '.'
    ensures ParseIdentifier(part, from, id)
         == Parsed(SkipWhite(part, from) + |Quoted(n)|, id.(name := n))
  {
    var end := SkipWhite(part, from) + |Quoted(n)|;
    NameScanned(part, from, n, end, id);
    ScanCloses(part, end, n, from, id);
  }

  /** The parser reads `quoteIdentifier(s)`, followed by any other character, back as `s` exactly
      when the driver's quoting of `s` was right, that is, when its backticks all come first. */
  lemma ParseUndoesQuoteIff(s: string, c: char)
    requires c != TICK && c != '.'
    ensures var q := QuoteIdentifier(s);
            ParseIdentifier(q + [c], 0, NO_IDENTIFIER) == Parsed(|q|, Identifier("", s)) <==> TicksLead(s)
  {
    var q := QuoteIdentifier(s);
    var part := q + [c];
    QuoteIdentifierCorrectIff(s);
    SkipsTo(part, 0, 0);
    if TicksLead(s) {
      assert part[0..|q|] == Quoted(s);
      ParsesQuotedName(part, 0, s, NO_IDENTIFIER);
    }
    if ParseIdentifier(part, 0, NO_IDENTIFIER) == Parsed(|q|, Identifier("", s)) {
      var n, end := NameFound(part, 0, NO_IDENTIFIER);
      if part[end] == '.' {
        LeadingEmptySchema(part, 0, NO_IDENTIFIER, n, end);
        QuoteIdentifierText(s);
        assert false;
      }
      ScanCloses(part, end, n, 0, NO_IDENTIFIER);
      assert part[0..|q|] == q;
    }
  }

  /** A schema read before a result without a schema was the empty one. */
  lemma LeadingEmptySchema(part: string, from: nat, id: Identifier, n: string, end: nat)
    requires NameAt(part, SkipWhite(part, from), n, end) && from < end && part[end] == '.'
    requires ParseIdentifier(part, from, id).Parsed?
    requires ParseIdentifier(part, from, id).value.schema == ""
    ensures n == "" && Quoted(n) == "``"
  {
    NameScanned(part, from, n, end, id);
    ScanCloses(part, end, n, from, id);
    SchemaKept(part, end + 1, id.(schema := n));
  }

  /** Only an empty schema is ever overwritten. */
  lemma {:induction false} SchemaKept(part: string, from: nat, id: Identifier)
    requires ParseIdentifier(part, from, id).Parsed?
    ensures id.schema != "" ==> ParseIdentifier(part, from, id).value.schema == id.schema
  {
    var n, end := NameFound(part, from, id);
    ScanCloses(part, end, n, from, id);
  }
}
