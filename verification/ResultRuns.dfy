/** Runs of an application over a result stream: what every reachable state satisfies, and what
    every answer is. */
module ResultRuns {
  import opened Strings
  import opened ResultStream

  // ---------- what a stream means ----------

  ghost predicate NoCallable(stream: seq<Entry>) {
    forall i :: 0 <= i < |stream| && stream[i].Select? ==> !stream[i].callable
  }

  function Stat(e: Entry): int {
    match e case Update(n) => n case Select(_, _) => RESULT_SET_VALUE
  }

  /** What the application should see after `k` calls of `getMoreResults`: the `k`-th response,
      or that there is none. It does not depend on when anything was read. */
  function Expected(stream: seq<Entry>, k: nat): Outcome {
    if k >= |stream| then Answer(false, None, -1)
    else match stream[k]
      case Update(n) => Answer(false, None, n)
      case Select(_, _) => Answer(true, Some(k), -1)
  }

  /** A count that `getUpdateCount` truncates to -1, with a response before and behind it. */
  predicate Bad(stream: seq<Entry>, i: nat) {
    0 < i < |stream| - 1 && stream[i].Update? && ToInt32(stream[i].count) == -1
  }

  /** The last response is a result set with at least as many rows as are fetched at once. */
  predicate StreamedTail(stream: seq<Entry>, f: nat) {
    stream != [] && Open(stream[|stream| - 1], f)
  }

  // ---------- the invariant ----------

  /** The result sets at positions `from..to`, in arrival order. */
  function Selects(stream: seq<Entry>, from: nat, to: nat): seq<nat>
    requires to <= |stream|
  {
    if to <= from then []
    else Selects(stream, from, to - 1) + (if stream[to - 1].Select? then [to - 1] else [])
  }

  lemma {:induction false} SelectsFirst(stream: seq<Entry>, from: nat, to: nat)
    requires from < to <= |stream|
    ensures Selects(stream, from, to)
         == (if stream[from].Select? then [from] else []) + Selects(stream, from + 1, to)
  {
    if from + 1 < to { SelectsFirst(stream, from, to - 1); }
  }

  ghost predicate CmdOk(s: State, stream: seq<Entry>, f: nat, c: nat) {
    && s.cmdInformation.Some?
    && match s.cmdInformation.value
       case Single(u) =>
         |stream| == 1 && !StreamedTail(stream, f) && u == if c == 0 then Stat(stream[0]) else -1
       case Multiple(counts, i) =>
         i == c && |counts| == s.taken <= |stream| && forall k :: 0 <= k < |counts| ==> counts[k] == Stat(stream[k])
       case Batch(_) => false
  }

  /** No count up to `c` is mistaken for the end. */
  ghost predicate NoBadUpTo(stream: seq<Entry>, c: nat) {
    forall j: nat :: j <= c ==> !Bad(stream, j)
  }

  /** While something is announced, reading keeps step with the cursor. */
  ghost predicate InStep(s: State, stream: seq<Entry>, f: nat, c: nat) {
    && s.taken == c + 1 && (s.pending != [] || StreamedTail(stream, f))
    && (s.pending != [] ==> s.fetchSize == f) && NoBadUpTo(stream, c)
  }

  /** After `c` successful calls of `getMoreResults`: the queue holds exactly the result sets
      behind the cursor that have arrived, in order, and the current one is the one under it. */
  ghost predicate Inv(s: State, stream: seq<Entry>, f: nat, c: nat) {
    && stream != [] && NoCallable(stream) && !s.batch && !s.cachingLocally
    && 1 <= s.taken <= |stream| && s.pending == stream[s.taken..]
    && CmdOk(s, stream, f, c)
    && s.executionResults == Selects(stream, c + 1, s.taken)
    && (s.currentRs.Some? ==> s.currentRs == Some(c) && c < s.taken && stream[c].Select?)
    && (s.resultSet.Some? ==> s.resultSet.value <= c && s.resultSet != s.currentRs)
    && (s.haveResultInWire ==> InStep(s, stream, f, c))
  }

  /** Nothing of the stream has been forgotten. */
  predicate Complete(s: State) {
    s.haveResultInWire || s.pending == []
  }

  lemma {:induction false} SelectsRange(stream: seq<Entry>, from: nat, to: nat)
    requires to <= |stream|
    ensures var q := Selects(stream, from, to);
      && (forall k: nat :: k in q <==> from <= k < to && stream[k].Select?)
      && (forall i, j :: 0 <= i < j < |q| ==> q[i] < q[j])
  {
    if from < to {
      SelectsRange(stream, from, to - 1);
      var p := Selects(stream, from, to - 1);
      forall i | 0 <= i < |p| ensures p[i] < to - 1 { assert p[i] in p; }
    }
  }

  /** Under the invariant each result set has one owner at most: the queue, the driver as its
      current one, or the application it was released to; and the queue holds the unseen ones. */
  ghost predicate SingleOwner(s: State, stream: seq<Entry>, c: nat, id: nat) {
    && (id in s.executionResults <==> c < id < s.taken <= |stream| && stream[id].Select?)
    && (id in s.executionResults ==> s.currentRs != Some(id) && s.resultSet != Some(id))
    && (s.currentRs == Some(id) ==> s.resultSet != Some(id))
    && (forall i, j :: 0 <= i < j < |s.executionResults| ==> s.executionResults[i] < s.executionResults[j])
  }

  lemma OwnerOf(s: State, stream: seq<Entry>, f: nat, c: nat, id: nat)
    requires Inv(s, stream, f, c)
    ensures SingleOwner(s, stream, c, id)
  {
    SelectsRange(stream, c + 1, s.taken);
  }

  // ---------- small steps ----------

  lemma SettledInv(s: State, id: Option<nat>, close: bool, stream: seq<Entry>, f: nat, c: nat)
    requires Inv(s, stream, f, c)
    ensures Inv(Settle(s, id, close), stream, f, c)
  {
    hide Settle;
  }

  lemma MovedInv(s: State, stream: seq<Entry>, f: nat, c: nat)
    requires Inv(s, stream, f, c)
    ensures Inv(Move(s), stream, f, c)
  {
    hide AllRead;
  }

  /** The state between reading an entry and advancing the cursor, and inside the draining loop:
      `announced` is the flag as the last `add` method left it. */
  ghost predicate Between(s: State, stream: seq<Entry>, f: nat, c: nat) {
    && stream != [] && NoCallable(stream) && !s.batch
    && 1 <= s.taken <= |stream| && s.pending == stream[s.taken..]
    && CmdOk(s, stream, f, c)
    && s.executionResults == Selects(stream, c + 1, s.taken)
    && (s.currentRs.Some? ==> s.currentRs == Some(c) && c < s.taken && stream[c].Select?)
    && (s.resultSet.Some? ==> s.resultSet.value <= c && s.resultSet != s.currentRs)
    && (s.haveResultInWire && s.pending != [] ==> s.fetchSize == f)
  }

  /** What `getResult` does with either kind of entry. */
  lemma GetUpdate(s: State)
    requires s.pending != [] && s.pending[0].Update?
    ensures var t := GetResult(s);
      && t.haveResultInWire == t.more == (s.pending[1..] != [])
      && t.cmdInformation == Some(Recorded(s.cmdInformation, s.batch, s.pending[0].count, t.haveResultInWire))
      && t.executionResults == s.executionResults && t.rows == s.rows
      && (s.pending[1..] != [] ==> t.fetchSize == s.fetchSize)
  {
  }

  /** Where a new result set's rows are, when nothing is being drained. */
  function NewRows(e: Entry, f: nat, binary: bool): RowState
    requires e.Select?
  {
    if f == 0 then (if binary then Buffered else Cached)
    else if e.rowCount < f then Cached else Streaming(f > 1)
  }

  lemma GetSelect(s: State)
    requires s.pending != [] && s.pending[0].Select? && !s.pending[0].callable
    ensures var t, e, f := GetResult(s), s.pending[0], s.fetchSize;
      && t.haveResultInWire == (s.pending[1..] != [] || Open(e, f))
      && t.cmdInformation == Some(Recorded(s.cmdInformation, s.batch, RESULT_SET_VALUE, t.haveResultInWire))
      && t.executionResults == s.executionResults + [s.taken]
      && (s.pending[1..] != [] ==> t.fetchSize == s.fetchSize)
  {
    GetSelectRead(s);
    hide AddResultSet, Construct, Recorded, Open, GetResult;
  }

  /** Its rows, and the driver's bit, outside and inside the draining loop. */
  lemma GetSelectRows(s: State)
    requires s.pending != [] && s.pending[0].Select? && !s.pending[0].callable
    ensures var t, e, f := GetResult(s), s.pending[0], s.fetchSize;
      if s.cachingLocally then
        && t.rows == s.rows[s.taken := if Stuck(e, f, s.binary) then Streaming(true) else Cached]
        && t.more == (s.pending[1..] != [] && !Stuck(e, f, s.binary))
      else
        && t.rows == s.rows[s.taken := NewRows(e, f, s.binary)]
        && t.more == (s.pending[1..] != [] && !Open(e, f))
  {
    GetSelectRead(s);
    hide GetResult;
    var s1 := s.(pending := s.pending[1..], taken := s.taken + 1, more := s.pending[1..] != []);
    var p := s.pending[1..] != [] || Open(s.pending[0], s.fetchSize);
    hide NewRows, Open, Stuck, AddResultSet, Construct;
    RowsAdded(s1, s.taken, s.pending[0], p);
  }

  lemma RowsAdded(s: State, id: nat, e: Entry, p: bool)
    requires e.Select? && !e.callable && s.more == (s.pending != [])
    ensures var s2 := Construct(s, id, false, e.rowCount);
      var t := AddResultSet(s2, id, false, p);
      if s.cachingLocally then
        && t.rows == s.rows[id := if Stuck(e, s.fetchSize, s.binary) then Streaming(true) else Cached]
        && t.more == (s.more && !Stuck(e, s.fetchSize, s.binary))
      else
        && t.rows == s.rows[id := NewRows(e, s.fetchSize, s.binary)] && t.more == (s.more && !Open(e, s.fetchSize))
  {
    var s2 := Construct(s, id, false, e.rowCount);
    assert s2.rows == s.rows[id := NewRows(e, s.fetchSize, s.binary)] && s2.more == (s.more && !Open(e, s.fetchSize))
      && s2.cachingLocally == s.cachingLocally && s2.binary == s.binary && s2.pending == s.pending by { hide AddResultSet; }
    hide Construct, AddResultSet;
    assert s.rows[id := NewRows(e, s.fetchSize, s.binary)][id := Cached] == s.rows[id := Cached];
  }

  lemma GetSelectRead(s: State)
    requires s.pending != [] && s.pending[0].Select? && !s.pending[0].callable
    ensures var s1 := s.(pending := s.pending[1..], taken := s.taken + 1, more := s.pending[1..] != []);
      var s2 := Construct(s1, s.taken, false, s.pending[0].rowCount);
      var p := s2.more || s2.fetchSize > 0;
      var s3 := AddResultSet(s2, s.taken, false, p);
      && GetResult(s) == (if p then s3.(active := true) else s3)
      && p == (s.pending[1..] != [] || Open(s.pending[0], s.fetchSize))
      && (p ==> s2.fetchSize == s.fetchSize)
  {
    hide AddResultSet, Construct;
  }

  lemma RecordedOk(s: State, t: State, stream: seq<Entry>, f: nat, c: nat, more: bool)
    requires CmdOk(s, stream, f, c) && s.taken < |stream| && t.taken == s.taken + 1 && c < s.taken
    requires t.cmdInformation == Some(Recorded(s.cmdInformation, s.batch, Stat(stream[s.taken]), more))
    requires 1 <= s.taken
    ensures CmdOk(t, stream, f, c)
  {
  }

  /** Reading one more entry. */
  lemma ReadOne(s: State, stream: seq<Entry>, f: nat, c: nat)
    requires Between(s, stream, f, c) && s.pending != [] && s.haveResultInWire && c < s.taken
    ensures var t := GetResult(s);
      && Between(t, stream, f, c)
      && t.haveResultInWire == (t.pending != [] || StreamedTail(stream, f))
  {
    PendingIs(s, stream, f, c);
    var t, e := GetResult(s), s.pending[0];
    hide *;
    if e.Update? {
      GetUpdate(s);
      UpdateNotOpen(e, f);
      Regroup(s.executionResults, [], []);
    } else {
      GetSelect(s);
    }
    BetweenGrows(s, t, stream, f, c);
  }

  lemma PendingIs(s: State, stream: seq<Entry>, f: nat, c: nat)
    requires Between(s, stream, f, c) && s.pending != [] && s.haveResultInWire
    ensures s.fetchSize == f && s.taken < |stream|
    ensures var e := s.pending[0]; e == stream[s.taken] && (e.Select? ==> !e.callable)
    ensures s.pending[0].Update? ==> s.pending[0].count == Stat(s.pending[0])
    ensures s.pending[0].Select? ==> RESULT_SET_VALUE == Stat(s.pending[0])
  {
  }

  /** One more entry recorded, queued if it is a result set, and announced if more follows. */
  lemma BetweenGrows(s: State, t: State, stream: seq<Entry>, f: nat, c: nat)
    requires Between(s, stream, f, c) && s.pending != [] && s.haveResultInWire && c < s.taken
    requires t.pending == s.pending[1..] && t.taken == s.taken + 1 && t.batch == s.batch
    requires t.currentRs == s.currentRs && t.resultSet == s.resultSet
    requires t.haveResultInWire == (s.pending[1..] != [] || Open(s.pending[0], f))
    requires t.cmdInformation == Some(Recorded(s.cmdInformation, s.batch, Stat(s.pending[0]), t.haveResultInWire))
    requires t.executionResults == s.executionResults + if s.pending[0].Select? then [s.taken] else []
    requires s.pending[1..] != [] ==> t.fetchSize == s.fetchSize
    ensures Between(t, stream, f, c) && t.haveResultInWire == (t.pending != [] || StreamedTail(stream, f))
  {
    assert s.pending[0] == stream[s.taken] && s.pending[1..] == stream[s.taken + 1..];
    assert s.pending[1..] == [] ==> s.taken == |stream| - 1;
    RecordedOk(s, t, stream, f, c, t.haveResultInWire);
    hide CmdOk, Recorded, Open, NoCallable;
  }

  /** The cursor moved from `c` to `c + 1`, over a response that had been read. */
  ghost predicate Moved(s: State, t: State, r: bool, stream: seq<Entry>, f: nat, c: nat)
    requires c + 1 < |stream| && s.taken <= |stream|
  {
    && CmdOk(t, stream, f, c + 1)
    && Answer(r, t.currentRs, t.cmdInformation.value.GetLargeUpdateCount()) == Expected(stream, c + 1)
    && t == s.(cmdInformation := t.cmdInformation, currentRs := t.currentRs, executionResults := t.executionResults,
               haveResultInWire := t.haveResultInWire, fetchSize := t.fetchSize, active := t.active)
    && t.executionResults == Selects(stream, c + 2, s.taken)
    && (stream[c + 1].Select? ==> t.currentRs == Some(c + 1))
    && (if s.haveResultInWire && stream[c + 1].Update? && ToInt32(stream[c + 1].count) == -1
        then !t.haveResultInWire
        else t.haveResultInWire == s.haveResultInWire && t.fetchSize == s.fetchSize)
  }

  /** Moving the cursor, when the entry behind it has been read. */
  lemma AdvanceOne(s: State, stream: seq<Entry>, f: nat, c: nat)
    requires Between(s, stream, f, c) && c + 1 < s.taken
    ensures Moved(s, Advance(s).0, Advance(s).1, stream, f, c)
  {
    SelectsFirst(stream, c + 1, s.taken);
    CmdMoves(s, stream, f, c);
    var rest := Selects(stream, c + 2, s.taken);
    hide CmdOk, NoCallable, Selects;
    if stream[c + 1].Select? {
      assert ([c + 1] + rest)[1..] == rest;
      AdvanceToSelect(s);
    } else {
      Regroup(rest, [], []);
      AdvanceToUpdate(s);
    }
    hide Advance;
  }

  lemma CmdMoves(s: State, stream: seq<Entry>, f: nat, c: nat)
    requires CmdOk(s, stream, f, c) && c + 1 < s.taken <= |stream|
    ensures var (cmd, more) := s.cmdInformation.value.MoreResults();
      && more == stream[c + 1].Select?
      && cmd.GetLargeUpdateCount() == Stat(stream[c + 1]) && cmd.GetUpdateCount() == ToInt32(Stat(stream[c + 1]))
      && forall t: State :: t.cmdInformation == Some(cmd) && t.taken == s.taken ==> CmdOk(t, stream, f, c + 1)
  {
    var cmd := s.cmdInformation.value;
    assert cmd.Multiple? && cmd.updateCounts[c + 1] == Stat(stream[c + 1]);
  }

  lemma AdvanceToSelect(s: State)
    requires s.cmdInformation.Some? && s.cmdInformation.value.MoreResults().1 && !s.batch && s.executionResults != []
    ensures Advance(s) ==
      (s.(cmdInformation := Some(s.cmdInformation.value.MoreResults().0),
          currentRs := Some(s.executionResults[0]), executionResults := s.executionResults[1..]), true)
  {
  }

  lemma AdvanceToUpdate(s: State)
    requires s.cmdInformation.Some? && !s.cmdInformation.value.MoreResults().1
    ensures var (t, r), cmd := Advance(s), s.cmdInformation.value.MoreResults().0;
      && !r
      && t == s.(cmdInformation := Some(cmd), currentRs := None, haveResultInWire := t.haveResultInWire,
                 fetchSize := t.fetchSize, active := t.active)
      && (if cmd.GetUpdateCount() == -1 && s.haveResultInWire then !t.haveResultInWire
          else t.haveResultInWire == s.haveResultInWire && t.fetchSize == s.fetchSize)
  {
  }

  /** Moving the cursor past the last entry that was read. */
  lemma AdvanceEnd(s: State, stream: seq<Entry>, f: nat, c: nat)
    requires Inv(s, stream, f, c) && !s.haveResultInWire && c + 1 >= s.taken
    ensures var (t, r) := Advance(s);
      && Inv(t, stream, f, c + 1) && !t.haveResultInWire
      && Answer(r, t.currentRs, t.cmdInformation.value.GetLargeUpdateCount()) == Answer(false, None, -1)
      && t.pending == s.pending && t.taken == s.taken && t.unsafeMoves == s.unsafeMoves
  {
    AdvanceToUpdate(s);
    assert Selects(stream, c + 2, s.taken) == [] == Selects(stream, c + 1, s.taken);
    hide Advance, NoCallable;
  }

  // ---------- the operations ----------

  /** What the application, or another statement on the connection, may do between answers. */
  datatype Op = GetMore(close: bool) | Release | LoadAll | AppClose(id: nat) | AppRead(id: nat)

  /** `execute`: read the first response, then `commandEnd`. */
  function Start(stream: seq<Entry>, f: nat, binary: bool): State
    requires stream != []
  {
    CommandEnd(GetResult(Fresh(stream, f, false, binary)))
  }

  lemma StartInv(stream: seq<Entry>, f: nat, binary: bool)
    requires stream != [] && NoCallable(stream)
    ensures var s := Start(stream, f, binary);
      && Inv(s, stream, f, 0) && s.binary == binary && s.unsafeMoves == 0
      && s.haveResultInWire == (|stream| > 1 || StreamedTail(stream, f))
      && Complete(s)
      && Answer(s.currentRs.Some?, s.currentRs, s.cmdInformation.value.GetLargeUpdateCount()) == Expected(stream, 0)
      && (stream[0].Select? ==> s.currentRs == Some(0))
      && s.rows == (if stream[0].Update? then map[] else map[0 := NewRows(stream[0], f, binary)])
      && s.more == (|stream| > 1 && !Open(stream[0], f))
  {
    StartRows(stream, f, binary);
    StartRead(stream, f, binary);
    hide GetResult, NewRows, Open, StreamedTail, Inv, FirstRead;
    CommandEndInv(GetResult(Fresh(stream, f, false, binary)), stream, f, binary);
  }

  /** The first response, read but not yet taken by `commandEnd`. */
  ghost predicate FirstRead(t: State, stream: seq<Entry>, f: nat, binary: bool)
    requires stream != []
  {
    var more := |stream| > 1 || StreamedTail(stream, f);
    && t.haveResultInWire == more && t.pending == stream[1..] && t.taken == 1 && !t.batch && !t.cachingLocally
    && t.cmdInformation == Some(if more then Multiple([Stat(stream[0])], 0) else Single(Stat(stream[0])))
    && t.executionResults == (if stream[0].Select? then [0] else [])
    && (|stream| > 1 ==> t.fetchSize == f)
    && t.currentRs == None && t.binary == binary && t.unsafeMoves == 0
  }

  lemma StartRead(stream: seq<Entry>, f: nat, binary: bool)
    requires stream != [] && NoCallable(stream)
    ensures FirstRead(GetResult(Fresh(stream, f, false, binary)), stream, f, binary)
  {
    var s := Fresh(stream, f, false, binary);
    assert |stream| > 1 <==> stream[1..] != [];
    assert [] + [Stat(stream[0])] == [Stat(stream[0])];
    hide GetResult, Open;
    if stream[0].Update? { GetUpdate(s); UpdateNotOpen(stream[0], f); } else { GetSelect(s); }
  }

  lemma CommandEndInv(t: State, stream: seq<Entry>, f: nat, binary: bool)
    requires stream != [] && NoCallable(stream) && FirstRead(t, stream, f, binary)
    ensures var s := CommandEnd(t);
      && Inv(s, stream, f, 0) && s.binary == binary && s.unsafeMoves == 0
      && s.haveResultInWire == (|stream| > 1 || StreamedTail(stream, f)) && Complete(s)
      && Answer(s.currentRs.Some?, s.currentRs, s.cmdInformation.value.GetLargeUpdateCount()) == Expected(stream, 0)
      && (stream[0].Select? ==> s.currentRs == Some(0)) && s.rows == t.rows && s.more == t.more
  {
    assert Selects(stream, 1, 1) == [];
    hide StreamedTail, NoCallable;
  }

  lemma StartRows(stream: seq<Entry>, f: nat, binary: bool)
    requires stream != [] && NoCallable(stream)
    ensures var t := GetResult(Fresh(stream, f, false, binary));
      && t.rows == (if stream[0].Update? then map[] else map[0 := NewRows(stream[0], f, binary)])
      && t.more == (|stream| > 1 && !Open(stream[0], f))
  {
    var s := Fresh(stream, f, false, binary);
    assert |stream| > 1 <==> stream[1..] != [];
    hide GetResult, NewRows, Open;
    if stream[0].Update? { GetUpdate(s); UpdateNotOpen(stream[0], f); } else { GetSelectRows(s); }
  }

  /** One call of `getMoreResults`, in any reachable state: it never returns, exactly when it is
      to close a result set that is still on the wire; or the client library is asked to move on
      an exhausted wire; or the answer is the next response if it has been read or is still
      announced, and "no more" otherwise. The invariant carries over. */
  lemma StepGetMore(s: State, close: bool, stream: seq<Entry>, f: nat, c: nat)
    requires Inv(s, stream, f, c)
    ensures var (t, o) := GetMoreResults(s, close);
      && (o == Blocked <==> Blocks(s, close))
      && if o == Blocked then t == s else MovedOn(s, t, o, stream, f, c)
  {
    if !Blocks(s, close) { StepMoveOn(s, close, stream, f, c); }
    hide MoveOn, MovedOn;
  }

  ghost predicate MovedOn(s: State, t: State, o: Outcome, stream: seq<Entry>, f: nat, c: nat) {
    if s.haveResultInWire && s.pending == [] then
      && o == Exhausted && StreamedTail(stream, f) && c + 1 == |stream|
      && Inv(t, stream, f, c) && t.haveResultInWire && t.pending == []
    else
      && Inv(t, stream, f, c + 1)
      && o == (if s.haveResultInWire || c + 1 < s.taken then Expected(stream, c + 1) else Answer(false, None, -1))
      && (if s.haveResultInWire
          then s.pending != [] && t.pending == s.pending[1..] && t.haveResultInWire ==
                 ((t.pending != [] || StreamedTail(stream, f)) && !Bad(stream, c + 1))
          else t.pending == s.pending && t.taken == s.taken && !t.haveResultInWire)
  }

  lemma StepMoveOn(s: State, close: bool, stream: seq<Entry>, f: nat, c: nat)
    requires Inv(s, stream, f, c)
    ensures var (t, o) := MoveOn(s, close);
      if s.haveResultInWire && s.pending == [] then
        && o == Exhausted && StreamedTail(stream, f) && c + 1 == |stream|
        && Inv(t, stream, f, c) && t.haveResultInWire && t.pending == []
      else
        && Inv(t, stream, f, c + 1)
        && o == (if s.haveResultInWire || c + 1 < s.taken then Expected(stream, c + 1) else Answer(false, None, -1))
        && (if s.haveResultInWire
            then t.pending == s.pending[1..] && t.haveResultInWire ==
                   ((t.pending != [] || StreamedTail(stream, f)) && !Bad(stream, c + 1))
            else t.pending == s.pending && t.taken == s.taken && !t.haveResultInWire)
  {
    var s1 := Settle(s, Present(s), close);
    SettledInv(s, Present(s), close, stream, f, c);
    hide Settle;
    MovedInv(s1, stream, f, c);
    if s1.haveResultInWire && s1.pending != [] {
      PullEntry(Move(s1), stream, f, c);
      hide Move, Advance, GetResult, Inv;
    } else if !s1.haveResultInWire {
      TakeStored(s1, stream, f, c);
      hide Advance, Inv, Move;
    }
  }

  lemma PullEntry(s: State, stream: seq<Entry>, f: nat, c: nat)
    requires Inv(s, stream, f, c) && s.haveResultInWire && s.pending != []
    ensures var (t, r) := Advance(GetResult(s));
      && Answer(r, t.currentRs, t.cmdInformation.value.GetLargeUpdateCount()) == Expected(stream, c + 1)
      && Inv(t, stream, f, c + 1) && t.pending == s.pending[1..]
      && t.haveResultInWire == ((t.pending != [] || StreamedTail(stream, f)) && !Bad(stream, c + 1))
      && (stream[c + 1].Select? ==> t.currentRs == Some(c + 1))
      && t.unsafeMoves == s.unsafeMoves && t.rows == GetResult(s).rows && t.more == GetResult(s).more
  {
    ReadOne(s, stream, f, c);
    var s1 := GetResult(s);
    assert s1.pending == stream[c + 2..] && s1.taken == c + 2 && !s1.cachingLocally && NoBadUpTo(stream, c);
    hide GetResult, Advance, Bad, StreamedTail, Inv, Between, NoBadUpTo;
    AdvanceOne(s1, stream, f, c);
    MovedIsInv(s1, Advance(s1).0, Advance(s1).1, stream, f, c);
  }

  lemma MovedIsInv(s: State, t: State, r: bool, stream: seq<Entry>, f: nat, c: nat)
    requires Between(s, stream, f, c) && !s.cachingLocally && s.taken == c + 2 && NoBadUpTo(stream, c)
    requires s.haveResultInWire == (s.pending != [] || StreamedTail(stream, f))
    requires Moved(s, t, r, stream, f, c)
    ensures Inv(t, stream, f, c + 1) && t.pending == s.pending
    ensures t.haveResultInWire == ((t.pending != [] || StreamedTail(stream, f)) && !Bad(stream, c + 1))
    ensures t.unsafeMoves == s.unsafeMoves && t.rows == s.rows && t.more == s.more
    ensures Answer(r, t.currentRs, t.cmdInformation.value.GetLargeUpdateCount()) == Expected(stream, c + 1)
    ensures stream[c + 1].Select? ==> t.currentRs == Some(c + 1)
  {
    BadHere(stream, f, c + 1, s.pending);
    hide Bad, StreamedTail, NoCallable, Expected;
    assert t.haveResultInWire ==> NoBadUpTo(stream, c + 1);
  }

  lemma BadHere(stream: seq<Entry>, f: nat, i: nat, pending: seq<Entry>)
    requires 0 < i < |stream| && pending == stream[i + 1..]
    ensures pending != [] || StreamedTail(stream, f) ==>
      (Bad(stream, i) <==> stream[i].Update? && ToInt32(stream[i].count) == -1)
  {
  }

  /** What a pull does to the rows and to the driver's bit. */
  lemma PullRows(s: State, stream: seq<Entry>, f: nat, c: nat)
    requires Inv(s, stream, f, c) && s.haveResultInWire && s.pending != []
    ensures c + 1 < |stream| && s.pending == stream[c + 1..] && s.pending[1..] == stream[c + 2..]
    ensures var t, e := GetResult(s), stream[c + 1];
      && t.rows == (if e.Update? then s.rows else s.rows[c + 1 := NewRows(e, f, s.binary)])
      && t.more == (s.pending[1..] != [] && !Open(e, f))
  {
    assert s.pending[0] == stream[c + 1] && !s.cachingLocally && s.fetchSize == f && s.taken == c + 1;
    assert stream[c + 1].Select? ==> !stream[c + 1].callable;
    hide Inv, GetResult, NewRows, Open;
    if s.pending[0].Update? { GetUpdate(s); UpdateNotOpen(s.pending[0], f); } else { GetSelectRows(s); }
  }

  lemma UpdateNotOpen(e: Entry, f: nat)
    requires e.Update?
    ensures !Open(e, f)
  {
  }

  lemma MoveOnRows(s: State, close: bool)
    requires s.cmdInformation.Some?
    ensures var s1, t := Settle(s, Present(s), close), MoveOn(s, close).0;
      if s1.haveResultInWire && s1.pending != []
      then t.rows == GetResult(Move(s1)).rows && t.taken == s.taken + 1
      else t.rows == s1.rows && t.taken == s.taken
  {
    hide Settle, GetResult, Advance, AllRead;
  }

  lemma TakeStored(s: State, stream: seq<Entry>, f: nat, c: nat)
    requires Inv(s, stream, f, c) && !s.haveResultInWire
    ensures var (t, r) := Advance(s);
      && Answer(r, t.currentRs, t.cmdInformation.value.GetLargeUpdateCount())
           == (if c + 1 < s.taken then Expected(stream, c + 1) else Answer(false, None, -1))
      && Inv(t, stream, f, c + 1) && !t.haveResultInWire
      && t.pending == s.pending && t.taken == s.taken && t.unsafeMoves == s.unsafeMoves
  {
    if c + 1 < s.taken {
      AdvanceOne(s, stream, f, c);
    } else {
      AdvanceEnd(s, stream, f, c);
    }
    hide Advance;
  }

  lemma {:induction false} DrainInv(s: State, stream: seq<Entry>, f: nat, c: nat)
    requires Between(s, stream, f, c) && c < s.taken && s.cachingLocally && (s.haveResultInWire || s.pending == [])
    ensures Between(Drain(s), stream, f, c) && Drain(s).cachingLocally
    decreases |s.pending|
  {
    if s.more && s.pending != [] {
      var s1 := Move(s);
      assert Between(s1, stream, f, c) by { hide AllRead; }
      hide Move;
      ReadOne(s1, stream, f, c);
      hide GetResult;
      DrainInv(GetResult(s1), stream, f, c);
    }
  }

  lemma StepLoadAll(s: State, stream: seq<Entry>, f: nat, c: nat)
    requires Inv(s, stream, f, c)
    ensures Inv(LoadFully(s, false), stream, f, c)
  {
    SettledInv(s, Last(s), false, stream, f, c);
    var s1 := Settle(s, Last(s), false);
    hide Settle;
    if s1.haveResultInWire {
      DrainInv(s1.(cachingLocally := true), stream, f, c);
    }
  }

  lemma StepOther(s: State, op: Op, stream: seq<Entry>, f: nat, c: nat)
    requires Inv(s, stream, f, c) && !op.GetMore?
    ensures Inv(Apply(s, op).0, stream, f, c) && Apply(s, op).1 == []
  {
    match op
    case Release =>
    case LoadAll => StepLoadAll(s, stream, f, c); hide LoadFully;
    case AppClose(id) =>
      SettledInv(s, Some(id), true, stream, f, c);
      assert Settle(s, Some(id), true) == CloseRows(s, id);
    case AppRead(id) => ReadInv(s, id, stream, f, c); hide ReadThrough;
  }

  lemma ReadInv(s: State, id: nat, stream: seq<Entry>, f: nat, c: nat)
    requires Inv(s, stream, f, c)
    ensures Inv(ReadThrough(s, id), stream, f, c)
  {
    hide ReadThrough;
  }

  // ---------- runs ----------

  function Apply(s: State, op: Op): (r: (State, seq<Outcome>))
    requires s.cmdInformation.Some?
    ensures r.0.cmdInformation.Some? && r.0.binary == s.binary
  {
    match op
    case GetMore(close) => var (t, o) := GetMoreResults(s, close); (t, [o])
    case Release => (ReleaseResultSet(s).0, [])
    case LoadAll => (LoadFully(s, false), [])
    case AppClose(id) => (CloseRows(s, id), [])
    case AppRead(id) => (ReadThrough(s, id), [])
  }

  /** Nothing is known behind such an outcome, or nothing comes. */
  predicate Final(o: Outcome) {
    o.Blocked? || o.Exhausted?
  }

  predicate Stops(answers: seq<Outcome>) {
    answers != [] && Final(answers[|answers| - 1])
  }

  /** A run, up to its first outcome of that kind. */
  function Run(s: State, script: seq<Op>): (r: (State, seq<Outcome>))
    requires s.cmdInformation.Some?
    ensures r.0.cmdInformation.Some?
    decreases |script|
  {
    if script == [] then (s, [])
    else
      var (t, now) := Apply(s, script[0]);
      if Stops(now) then (t, now) else
      var (u, later) := Run(t, script[1..]);
      (u, now + later)
  }

  function Asked(script: seq<Op>): nat {
    if script == [] then 0 else (if script[0].GetMore? then 1 else 0) + Asked(script[1..])
  }

  /** The next `n` answers a stream stands for, from the cursor on. */
  function Answers(stream: seq<Entry>, c: nat, n: nat): seq<Outcome>
    decreases n
  {
    if n == 0 then [] else [Expected(stream, c + 1)] + Answers(stream, c + 1, n - 1)
  }

  lemma RunCons(s: State, script: seq<Op>)
    requires s.cmdInformation.Some? && script != []
    ensures var (t, now) := Apply(s, script[0]);
            Run(s, script) == if Stops(now) then (t, now) else (Run(t, script[1..]).0, now + Run(t, script[1..]).1)
  {
    hide Apply;
  }

  lemma Regroup<T>(a: seq<T>, b: seq<T>, c: seq<T>)
    ensures (a + b) + c == a + (b + c)
    ensures [] + a == a && a + [] == a
  {
  }

  lemma StopShows(s: State, script: seq<Op>)
    requires s.cmdInformation.Some? && script != []
    ensures Stops(Apply(s, script[0]).1) ==> exists o :: o in Run(s, script).1 && Final(o)
  {
    var now := Apply(s, script[0]).1;
    if Stops(now) { assert now[|now| - 1] in Run(s, script).1; }
    hide Apply;
  }

  lemma {:induction false} RunAppend(s: State, a: seq<Op>, b: seq<Op>)
    requires s.cmdInformation.Some? && forall o :: o in Run(s, a).1 ==> !Final(o)
    ensures var (t, first) := Run(s, a);
            Run(s, a + b) == (Run(t, b).0, first + Run(t, b).1)
    ensures Asked(a + b) == Asked(a) + Asked(b)
    decreases |a|
  {
    if a == [] {
      assert a + b == b && [] + Run(s, b).1 == Run(s, b).1;
    } else {
      assert (a + b)[0] == a[0] && (a + b)[1..] == a[1..] + b;
      var (t, now) := Apply(s, a[0]);
      RunCons(s, a);
      RunCons(s, a + b);
      StopShows(s, a);
      RunAppend(t, a[1..], b);
      Regroup(now, Run(t, a[1..]).1, Run(Run(t, a[1..]).0, b).1);
      hide Apply, Run;
    }
  }

  // ---------- every run ----------

  /** How far the cursor has come. */
  function Position(answers: seq<Outcome>): nat {
    if answers == [] then 0 else (if Final(answers[0]) then 0 else 1) + Position(answers[1..])
  }

  /** Each answer is the next response, or says that there is no more, or ends the run; a result
      set is never handed out twice, skipped or stale. */
  ghost predicate NeverStale(stream: seq<Entry>, c: nat, answers: seq<Outcome>)
    decreases |answers|
  {
    answers == [] ||
    if Final(answers[0]) then |answers| == 1
    else
      && (answers[0] == Expected(stream, c + 1) || answers[0] == Answer(false, None, -1))
      && NeverStale(stream, c + 1, answers[1..])
  }

  ghost predicate GoodRun(s: State, script: seq<Op>, stream: seq<Entry>, f: nat, c: nat)
    requires s.cmdInformation.Some?
  {
    var (t, answers) := Run(s, script);
    Inv(t, stream, f, c + Position(answers)) && NeverStale(stream, c, answers)
  }

  lemma {:induction false} RunInv(s: State, script: seq<Op>, stream: seq<Entry>, f: nat, c: nat)
    requires Inv(s, stream, f, c)
    ensures s.cmdInformation.Some? && GoodRun(s, script, stream, f, c)
    decreases |script|
  {
    assert s.cmdInformation.Some?;
    hide *;
    if script == [] {
      GoodNothing(s, stream, f, c);
    } else {
      var d := StepInv(s, script[0], stream, f, c);
      if Stops(Apply(s, script[0]).1) {
        GoodStop(s, script, stream, f, c, d);
      } else {
        RunInv(Apply(s, script[0]).0, script[1..], stream, f, d);
        GoodCons(s, script, stream, f, c, d);
      }
    }
  }

  lemma GoodNothing(s: State, stream: seq<Entry>, f: nat, c: nat)
    requires Inv(s, stream, f, c)
    ensures s.cmdInformation.Some? && GoodRun(s, [], stream, f, c)
  {
    RunEmpty(s, stream, c);
    hide Run;
  }

  lemma GoodStop(s: State, script: seq<Op>, stream: seq<Entry>, f: nat, c: nat, d: nat)
    requires s.cmdInformation.Some? && script != [] && Stops(Apply(s, script[0]).1)
    requires OneStep(stream, c, d, Apply(s, script[0]).1) && Inv(Apply(s, script[0]).0, stream, f, d)
    ensures GoodRun(s, script, stream, f, c)
  {
    StopAlone(stream, c, d, Apply(s, script[0]).1);
    RunCons(s, script);
    hide Apply, Run, Inv, Position, NeverStale, OneStep;
  }

  lemma StopAlone(stream: seq<Entry>, c: nat, d: nat, now: seq<Outcome>)
    requires OneStep(stream, c, d, now) && Stops(now)
    ensures d == c && Position(now) == 0 && NeverStale(stream, c, now)
  {
    assert |now| == 1 && Final(now[0]);
    assert now[1..] == [];
  }

  lemma GoodCons(s: State, script: seq<Op>, stream: seq<Entry>, f: nat, c: nat, d: nat)
    requires s.cmdInformation.Some? && script != []
    requires OneStep(stream, c, d, Apply(s, script[0]).1) && !Stops(Apply(s, script[0]).1)
    requires GoodRun(Apply(s, script[0]).0, script[1..], stream, f, d)
    ensures GoodRun(s, script, stream, f, c)
  {
    var (t, now) := Apply(s, script[0]);
    var later := Run(t, script[1..]).1;
    AnswersJoin(stream, c, d, now, later);
    hide *;
    RunCons(s, script);
    GoodJoin(s, script, stream, f, c, d, t, now);
  }

  lemma GoodJoin(s: State, script: seq<Op>, stream: seq<Entry>, f: nat, c: nat, d: nat, t: State, now: seq<Outcome>)
    requires s.cmdInformation.Some? && t.cmdInformation.Some? && script != []
    requires Run(s, script) == (Run(t, script[1..]).0, now + Run(t, script[1..]).1)
    requires GoodRun(t, script[1..], stream, f, d)
    requires var later := Run(t, script[1..]).1;
      NeverStale(stream, c, now + later) && c + Position(now + later) == d + Position(later)
    ensures GoodRun(s, script, stream, f, c)
  {
    hide Run, Inv, NeverStale, Position;
  }

  lemma RunEmpty(s: State, stream: seq<Entry>, c: nat)
    requires s.cmdInformation.Some?
    ensures Run(s, []) == (s, []) && Position([]) == 0 && Asked([]) == 0
    ensures NeverStale(stream, c, []) && Answers(stream, c, 0) == []
  {
  }

  ghost predicate OneStep(stream: seq<Entry>, c: nat, d: nat, now: seq<Outcome>) {
    || (d == c && (now == [] || (|now| == 1 && Final(now[0]))))
    || (d == c + 1 && |now| == 1 && !Final(now[0])
        && (now[0] == Expected(stream, d) || now[0] == Answer(false, None, -1)))
  }

  lemma StepInv(s: State, op: Op, stream: seq<Entry>, f: nat, c: nat) returns (d: nat)
    requires Inv(s, stream, f, c)
    ensures s.cmdInformation.Some? && Inv(Apply(s, op).0, stream, f, d) && OneStep(stream, c, d, Apply(s, op).1)
  {
    if op.GetMore? {
      StepGetMore(s, op.close, stream, f, c);
      d := if Final(GetMoreResults(s, op.close).1) then c else c + 1;
      hide GetMoreResults, Inv;
    } else {
      StepOther(s, op, stream, f, c);
      d := c;
      hide Inv;
    }
  }

  lemma AnswersJoin(stream: seq<Entry>, c: nat, d: nat, now: seq<Outcome>, later: seq<Outcome>)
    requires OneStep(stream, c, d, now) && !Stops(now) && NeverStale(stream, d, later)
    ensures NeverStale(stream, c, now + later) && c + Position(now + later) == d + Position(later)
  {
    if now == [] {
      assert now + later == later;
    } else {
      assert (now + later)[0] == now[0] && (now + later)[1..] == later;
    }
  }

  /** In every run, over every stream, text or binary, streamed or not: each result set has one
      owner at most, the queue holds exactly the unseen ones that have arrived, in order, and an
      answer with a result set always installs the next one. */
  lemma EveryRun(stream: seq<Entry>, f: nat, binary: bool, script: seq<Op>, id: nat)
    requires stream != [] && NoCallable(stream)
    ensures Start(stream, f, binary).cmdInformation.Some?
    ensures var (t, answers) := Run(Start(stream, f, binary), script);
      SingleOwner(t, stream, Position(answers), id) && NeverStale(stream, 0, answers)
  {
    StartInv(stream, f, binary);
    var s := Start(stream, f, binary);
    hide Start;
    RunInv(s, script, stream, f, 0);
    var (t, answers) := Run(s, script);
    hide Run, Inv, NeverStale, Position;
    OwnerOf(t, stream, f, Position(answers), id);
  }

  /** The script never asks `getMoreResults` to close a result set that is still on the wire. */
  predicate Gentle(s: State, script: seq<Op>)
    requires s.cmdInformation.Some?
    decreases |script|
  {
    script == [] || (!BlocksOn(s, script[0]) && Gentle(Apply(s, script[0]).0, script[1..]))
  }

  predicate BlocksOn(s: State, op: Op) {
    op.GetMore? && Blocks(s, op.close)
  }

  /** Once the rest is drained, a run gives the right answers exactly when it is gentle. */
  lemma {:induction false} DrainedGoesRightIff(s: State, script: seq<Op>, stream: seq<Entry>, f: nat, c: nat)
    requires Inv(s, stream, f, c) && !s.haveResultInWire && s.pending == []
    ensures s.cmdInformation.Some?
    ensures Run(s, script).1 == Answers(stream, c, Asked(script)) <==> Gentle(s, script)
    decreases |script|
  {
    assert s.cmdInformation.Some?;
    GentleCons(s, script);
    hide *;
    if script == [] {
      RunEmpty(s, stream, c);
    } else if BlocksOn(s, script[0]) {
      BlockedGoesWrong(s, script, stream, c);
    } else {
      var d := StepDrained(s, script[0], stream, f, c);
      DrainedGoesRightIff(Apply(s, script[0]).0, script[1..], stream, f, d);
      RunRightIff(s, script, stream, c, d);
    }
  }

  lemma GentleCons(s: State, script: seq<Op>)
    requires s.cmdInformation.Some?
    ensures Gentle(s, script) <==>
      script == [] || (!BlocksOn(s, script[0]) && Gentle(Apply(s, script[0]).0, script[1..]))
  {
    hide Apply, BlocksOn;
  }

  /** A call that never returns gives no answer. */
  lemma BlockedGoesWrong(s: State, script: seq<Op>, stream: seq<Entry>, c: nat)
    requires s.cmdInformation.Some? && script != [] && BlocksOn(s, script[0])
    ensures Run(s, script).1 == [Blocked] && Run(s, script).1 != Answers(stream, c, Asked(script))
  {
    RunCons(s, script);
    assert Apply(s, script[0]) == (s, [Blocked]) && Asked(script) > 0;
    hide Apply, Run, BlocksOn;
    assert Answers(stream, c, Asked(script))[0] == Expected(stream, c + 1) != Blocked;
  }

  lemma StepDrained(s: State, op: Op, stream: seq<Entry>, f: nat, c: nat) returns (d: nat)
    requires Inv(s, stream, f, c) && !s.haveResultInWire && s.pending == [] && !BlocksOn(s, op)
    ensures s.cmdInformation.Some?
    ensures var t := Apply(s, op).0; Inv(t, stream, f, d) && !t.haveResultInWire && t.pending == []
    ensures RightStep(s, op, stream, c, d)
  {
    d := if op.GetMore? then c + 1 else c;
    if op.GetMore? {
      StepGetMore(s, op.close, stream, f, c);
      hide GetMoreResults, Blocks;
    } else {
      StepOther(s, op, stream, f, c);
      StaysOffWire(s, op);
      hide Apply;
    }
    hide Inv;
  }

  lemma AnswersCons(stream: seq<Entry>, c: nat, script: seq<Op>)
    requires script != []
    ensures var n := Asked(script[1..]);
      if script[0].GetMore? then
        Asked(script) == n + 1 && Answers(stream, c, n + 1) == [Expected(stream, c + 1)] + Answers(stream, c + 1, n)
      else Asked(script) == n
  {
  }

  /** An operation that takes the cursor from `c` to `d` and gives the right answer, if any. */
  ghost predicate RightStep(s: State, op: Op, stream: seq<Entry>, c: nat, d: nat)
    requires s.cmdInformation.Some?
  {
    if op.GetMore? then d == c + 1 && Apply(s, op).1 == [Expected(stream, d)]
    else d == c && Apply(s, op).1 == []
  }

  /** Behind a right step a run is right exactly when the rest of it is. */
  lemma RunRightIff(s: State, script: seq<Op>, stream: seq<Entry>, c: nat, d: nat)
    requires s.cmdInformation.Some? && script != [] && RightStep(s, script[0], stream, c, d)
    ensures Run(s, script).1 == Answers(stream, c, Asked(script))
        <==> Run(Apply(s, script[0]).0, script[1..]).1 == Answers(stream, d, Asked(script[1..]))
  {
    RightStepGives(s, script[0], stream, c, d);
    RunCons(s, script);
    AnswersCons(stream, c, script);
    var (t, now) := Apply(s, script[0]);
    var later := Run(t, script[1..]).1;
    hide *;
    Regroup(later, [], []);
    if script[0].GetMore? { SameBehind(now, later, Answers(stream, d, Asked(script[1..]))); }
  }

  lemma SameBehind<T>(a: seq<T>, b: seq<T>, c: seq<T>)
    ensures a + b == a + c <==> b == c
  {
    assert (a + b)[|a|..] == b && (a + c)[|a|..] == c;
  }

  lemma RightStepGives(s: State, op: Op, stream: seq<Entry>, c: nat, d: nat)
    requires s.cmdInformation.Some? && RightStep(s, op, stream, c, d)
    ensures if op.GetMore? then d == c + 1 && Apply(s, op).1 == [Expected(stream, c + 1)]
            else d == c && Apply(s, op).1 == []
    ensures !Stops(Apply(s, op).1)
  {
    hide Apply;
  }

  lemma StaysOffWire(s: State, op: Op)
    requires s.cmdInformation.Some? && !s.haveResultInWire && !op.GetMore?
    ensures OffWire(s, Apply(s, op).0)
  {
    LoadStaysOffWire(s);
    TouchStaysOffWire(s, if op.AppClose? || op.AppRead? then op.id else 0);
    hide LoadFully, CloseRows, ReadThrough, ReleaseResultSet;
    assert OffWire(s, ReleaseResultSet(s).0) by { ReleaseStaysOffWire(s); }
    hide OffWire;
  }

  /** Still nothing announced, and nothing moved. */
  predicate OffWire(s: State, t: State) {
    !t.haveResultInWire && t.unsafeMoves == s.unsafeMoves && t.pending == s.pending
  }

  lemma ReleaseStaysOffWire(s: State)
    requires !s.haveResultInWire
    ensures OffWire(s, ReleaseResultSet(s).0)
  {
  }

  lemma LoadStaysOffWire(s: State)
    requires !s.haveResultInWire
    ensures OffWire(s, LoadFully(s, false))
  {
    hide Settle, Last;
  }

  lemma TouchStaysOffWire(s: State, id: nat)
    requires !s.haveResultInWire
    ensures OffWire(s, CloseRows(s, id)) && OffWire(s, ReadThrough(s, id))
  {
    hide CloseRows, ReadThrough;
  }
}
