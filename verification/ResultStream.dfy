/** The result-stream state machine of `Results` (src/Results.cpp) with the statistics records of
    src/com/CmdInformation*.cpp and the part of the protocol that feeds them
    (src/protocol/capi/QueryProtocol.cpp:1349-1424 and 1658-1700), and what result sets do with
    their rows (src/com/capi/SelectResultSetCapi.cpp and SelectResultSetBin.cpp). */
module ResultStream {
  import opened Strings

  // ---------- CmdInformation ----------

  const EXECUTE_FAILED := -3
  const RESULT_SET_VALUE := -1

  /** The affected-row counts a server can report, as the driver's `int64_t`. */
  type RowCount = n: int | 0 <= n < 0x8000_0000_0000_0000

  /** `static_cast<int32_t>`. */
  function ToInt32(n: int): (r: int)
    ensures -0x8000_0000 <= r < 0x8000_0000
  {
    var m := n % 0x1_0000_0000;
    if m >= 0x8000_0000 then m - 0x1_0000_0000 else m
  }

  datatype CmdInformation =
    | Single(updateCount: int)
    | Multiple(updateCounts: seq<int>, moreResultsIdx: nat)
    | Batch(updateCounts: seq<int>)
  {
    /** `addSuccessStat`, `addErrorStat` and `addResultSetStat`; a Single record ignores them. */
    function Add(stat: int): CmdInformation {
      match this
      case Single(_) => this
      case Multiple(counts, i) => Multiple(counts + [stat], i)
      case Batch(counts) => Batch(counts + [stat])
    }

    function MoreResults(): (CmdInformation, bool) {
      match this
      case Single(_) => (Single(RESULT_SET_VALUE), false)
      case Multiple(counts, i) =>
        (Multiple(counts, i + 1), i + 1 < |counts| && counts[i + 1] == RESULT_SET_VALUE)
      case Batch(_) => (this, false)
    }

    predicate IsCurrentUpdateCount() {
      match this
      case Single(n) => n != RESULT_SET_VALUE
      case Multiple(counts, i) => i < |counts| && counts[i] != RESULT_SET_VALUE
      case Batch(_) => false
    }

    function GetLargeUpdateCount(): int {
      match this
      case Single(n) => n
      case Multiple(counts, i) => if i < |counts| then counts[i] else -1
      case Batch(counts) => if counts == [] then -1 else counts[0]
    }

    function GetUpdateCount(): int {
      ToInt32(GetLargeUpdateCount())
    }

    function Size(): nat {
      if Single? then 1 else |updateCounts|
    }
  }

  // ---------- the state ----------

  /** One server response: a count of affected rows, or a result set with so many rows. */
  datatype Entry = Update(count: RowCount) | Select(callable: bool, rowCount: nat)

  /** Where the rows of a result set are: some still on the wire (`ahead`: those read so far were
      copied), all in the client library's buffer for the statement (which the next result
      overwrites), owned by the result set, or discarded. */
  datatype RowState = Streaming(ahead: bool) | Buffered | Cached | Closed

  predicate Unread(r: RowState) {
    r.Streaming? || r.Buffered?
  }

  /** A result set is named by the position of its entry in the stream. `binary` tells results of
      a server-side prepared statement from text results. `more` is the MORE_RESULTS_EXISTS bit
      of the protocol's `serverStatus`. The last two fields only observe: calls of
      `removeActiveStreamingResult` from the `add` methods, and moves to the next result while
      rows of an earlier one were neither read nor discarded; what the client library does then
      is not modelled, so a run tells something up to its first such move. */
  datatype State = State(
    // Results
    fetchSize: nat, batch: bool, binary: bool, cmdInformation: Option<CmdInformation>,
    executionResults: seq<nat>, currentRs: Option<nat>, resultSet: Option<nat>,
    callableResultSet: Option<nat>, haveResultInWire: bool, cachingLocally: bool,
    // Protocol
    pending: seq<Entry>, taken: nat, more: bool, active: bool, rows: map<nat, RowState>,
    // observers
    removals: nat, unsafeMoves: nat)

  function Fresh(stream: seq<Entry>, fetchSize: nat, batch: bool, binary: bool): State {
    State(fetchSize, batch, binary, None, [], None, None, None, false, false,
          stream, 0, stream != [], false, map[], 0, 0)
  }

  /** `ConnectProtocol::removeActiveStreamingResult`. */
  function RemoveActive(s: State): (r: State)
    ensures r == s.(fetchSize := r.fetchSize, active := r.active)
    ensures s.fetchSize == 0 ==> r.fetchSize == 0
    ensures s.active ==> r.fetchSize == 0
  {
    if s.active then s.(fetchSize := 0, active := false) else s
  }

  // ---------- result sets ----------

  /** The end of the rows on the wire: `serverStatus` is read again, and after the last result
      the protocol forgets the streaming one. */
  function EndOfRows(s: State): (r: State)
    ensures r == s.(more := s.pending != [], fetchSize := r.fetchSize, active := r.active)
    ensures s.pending != [] ==> r.fetchSize == s.fetchSize
    ensures s.fetchSize == 0 ==> r.fetchSize == 0
  {
    var s1 := s.(more := s.pending != []);
    if s1.more then s1 else RemoveActive(s1)
  }

  /** Reading a result set to its end. */
  function ReadOut(s: State, id: nat, now: RowState): (r: State)
    ensures r == s.(rows := r.rows, more := r.more, fetchSize := r.fetchSize, active := r.active)
    ensures s.pending != [] ==> r.fetchSize == s.fetchSize
    ensures r.rows == if id in s.rows then s.rows[id := now] else s.rows
    ensures r.more == if id in s.rows && s.rows[id].Streaming? then s.pending != [] else s.more
    ensures s.fetchSize == 0 ==> r.fetchSize == 0
  {
    if id !in s.rows then s
    else
      var s1 := s.(rows := s.rows[id := now]);
      if s.rows[id].Streaming? then EndOfRows(s1) else s1
  }

  /** `close()`: the rows are discarded and a released result set checks out. */
  function CloseRows(s: State, id: nat): (r: State)
    ensures r == s.(rows := r.rows, more := r.more, fetchSize := r.fetchSize, active := r.active,
                    resultSet := r.resultSet)
    ensures s.pending != [] ==> r.fetchSize == s.fetchSize
    ensures r.rows == if id in s.rows then s.rows[id := Closed] else s.rows
    ensures r.more == if id in s.rows && s.rows[id].Streaming? then s.pending != [] else s.more
    ensures r.resultSet == if s.resultSet == Some(id) then None else s.resultSet
  {
    var s1 := ReadOut(s, id, Closed);
    if s1.resultSet == Some(id) then s1.(resultSet := None) else s1
  }

  /** A binary result set that was streamed with rows read ahead: its `cacheCompleteLocally`
      finds rows in its own memory and returns, although others are still on the wire. */
  predicate Sticks(s: State, id: nat) {
    s.binary && id in s.rows && s.rows[id] == Streaming(true)
  }

  /** `cacheCompleteLocally()`. */
  function CacheRows(s: State, id: nat): (r: State)
    ensures r == s.(rows := r.rows, more := r.more, fetchSize := r.fetchSize, active := r.active)
    ensures s.pending != [] ==> r.fetchSize == s.fetchSize
    ensures r.rows == if id in s.rows && Unread(s.rows[id]) && !Sticks(s, id) then s.rows[id := Cached] else s.rows
    ensures r.more == if id in s.rows && s.rows[id].Streaming? && !Sticks(s, id) then s.pending != [] else s.more
    ensures s.fetchSize == 0 ==> r.fetchSize == 0
  {
    if id in s.rows && Unread(s.rows[id]) && !Sticks(s, id) then ReadOut(s, id, Cached) else s
  }

  /** The application reads a result set to its end by `next()`. */
  function ReadThrough(s: State, id: nat): (r: State)
    ensures r == s.(rows := r.rows, more := r.more, fetchSize := r.fetchSize, active := r.active)
    ensures s.pending != [] ==> r.fetchSize == s.fetchSize
    ensures r.rows == if id in s.rows && s.rows[id].Streaming? then s.rows[id := Cached] else s.rows
    ensures r.more == if id in s.rows && s.rows[id].Streaming? then s.pending != [] else s.more
  {
    if id in s.rows && s.rows[id].Streaming? then ReadOut(s, id, Cached) else s
  }

  // ---------- add... ----------

  function Preface(s: State, more: bool): (r: State)
    ensures r == s.(fetchSize := r.fetchSize, active := r.active, removals := r.removals, haveResultInWire := more)
    ensures more ==> r.fetchSize == s.fetchSize
    ensures r.removals == s.removals + if s.haveResultInWire && !more && s.fetchSize == 0 then 1 else 0
    ensures s.fetchSize == 0 ==> r.fetchSize == 0
  {
    var s1 := if s.haveResultInWire && !more && s.fetchSize == 0
              then RemoveActive(s).(removals := s.removals + 1) else s;
    s1.(haveResultInWire := more)
  }

  function Recorded(cmd: Option<CmdInformation>, batch: bool, stat: int, more: bool): CmdInformation {
    match cmd
    case Some(cmd) => cmd.Add(stat)
    case None =>
      if batch then Batch([]).Add(stat)
      else if more then Multiple([], 0).Add(stat)
      else Single(stat)
  }

  function Record(s: State, stat: int, more: bool): State {
    s.(cmdInformation := Some(Recorded(s.cmdInformation, s.batch, stat, more)))
  }

  function AddStats(s: State, updateCount: int, more: bool): State {
    Record(Preface(s, more), updateCount, more)
  }

  function AddStatsError(s: State, more: bool): State {
    Record(Preface(s, more), EXECUTE_FAILED, more)
  }

  function AddResultSet(s: State, id: nat, callable: bool, more: bool): (r: State)
    ensures r == s.(fetchSize := r.fetchSize, active := r.active, removals := r.removals, rows := r.rows,
                    more := r.more, haveResultInWire := more, executionResults := r.executionResults,
                    cmdInformation := r.cmdInformation, callableResultSet := r.callableResultSet)
    ensures callable ==> r.executionResults == s.executionResults && r.cmdInformation == s.cmdInformation
    ensures !callable ==> r.executionResults == s.executionResults + [id]
    ensures !callable ==> r.cmdInformation == Some(Recorded(s.cmdInformation, s.batch, RESULT_SET_VALUE, more))
    ensures more && s.pending != [] ==> r.fetchSize == s.fetchSize
    ensures s.fetchSize == 0 ==> r.fetchSize == 0
    ensures r.removals == s.removals + if s.haveResultInWire && !more && s.fetchSize == 0 then 1 else 0
    ensures r.rows == if !callable && s.cachingLocally && id in s.rows && Unread(s.rows[id]) && !Sticks(s, id)
                      then s.rows[id := Cached] else s.rows
    ensures r.more == if !callable && s.cachingLocally && id in s.rows && s.rows[id].Streaming? && !Sticks(s, id)
                      then s.pending != [] else s.more
  {
    var s1 := Preface(s, more);
    if callable then s1.(callableResultSet := Some(id))
    else
      var s2 := s1.(executionResults := s1.executionResults + [id]);
      Record(if s2.cachingLocally then CacheRows(s2, id) else s2, RESULT_SET_VALUE, more)
  }

  // ---------- the protocol ----------

  /** `getResult`: hands over the next pending entry. */
  function GetResult(s: State): (r: State)
    requires s.pending != []
    ensures r == s.(fetchSize := r.fetchSize, active := r.active, removals := r.removals, rows := r.rows,
                    haveResultInWire := r.haveResultInWire, executionResults := r.executionResults,
                    cmdInformation := r.cmdInformation, callableResultSet := r.callableResultSet,
                    pending := s.pending[1..], taken := s.taken + 1, more := r.more)
    ensures s.cmdInformation.Some? ==> r.cmdInformation.Some?
  {
    var s1 := s.(pending := s.pending[1..], taken := s.taken + 1, more := s.pending[1..] != []);
    match s.pending[0]
    case Update(count) => AddStats(s1, count, s1.more)
    case Select(callable, rowCount) => ReadResultSet(s1, s.taken, callable, rowCount)
  }

  /** The constructor of a result set. With a fetch size it stays on the wire: the driver's own
      bit for further results is cleared, and one batch of rows is read; a shorter result set
      ends there. */
  function Construct(s: State, id: nat, callable: bool, rowCount: nat): (r: State)
    ensures r == s.(rows := r.rows, more := r.more, fetchSize := r.fetchSize, active := r.active)
    ensures s.pending != [] ==> r.fetchSize == s.fetchSize
    ensures r.rows == s.rows[id :=
      if s.fetchSize == 0 || callable then (if s.binary then Buffered else Cached)
      else if rowCount < s.fetchSize then Cached
      else Streaming(s.fetchSize > 1)]
    ensures r.more == if s.fetchSize == 0 || callable then s.more else rowCount < s.fetchSize && s.pending != []
    ensures s.pending == [] && !callable && rowCount < s.fetchSize ==> r.fetchSize == 0
    ensures rowCount >= s.fetchSize || callable ==> r.fetchSize == s.fetchSize
  {
    if s.fetchSize == 0 || callable then s.(rows := s.rows[id := if s.binary then Buffered else Cached])
    else
      var s1 := s.(rows := s.rows[id := Streaming(s.fetchSize > 1)], active := true, more := false);
      if rowCount < s.fetchSize then ReadOut(s1, id, Cached) else s1
  }

  /** `readResultSet`. */
  function ReadResultSet(s: State, id: nat, callable: bool, rowCount: nat): (r: State)
    ensures r == s.(fetchSize := r.fetchSize, active := r.active, removals := r.removals, rows := r.rows,
                    more := r.more, haveResultInWire := r.haveResultInWire, executionResults := r.executionResults,
                    cmdInformation := r.cmdInformation, callableResultSet := r.callableResultSet)
    ensures s.cmdInformation.Some? ==> r.cmdInformation.Some?
  {
    hide AddResultSet;
    var s1 := Construct(s, id, callable, rowCount);
    var pendingResults := s1.more || s1.fetchSize > 0;
    var s2 := AddResultSet(s1, id, callable, pendingResults);
    if pendingResults then s2.(active := true) else s2
  }

  predicate AllRead(s: State) {
    forall id :: id in s.rows ==> !Unread(s.rows[id])
  }

  /** `moveToNextResult`: what was not read before is lost or blocks the wire. */
  function Move(s: State): (r: State)
    ensures r == s.(unsafeMoves := s.unsafeMoves + if AllRead(s) then 0 else 1)
  {
    if AllRead(s) then s else s.(unsafeMoves := s.unsafeMoves + 1)
  }

  // ---------- the operations of Results ----------

  function CommandEnd(s: State): State {
    var s1 := s.(resultSet := None);
    if s1.cmdInformation.Some? && s1.executionResults != [] && !s1.cmdInformation.value.IsCurrentUpdateCount()
    then s1.(currentRs := Some(s1.executionResults[0]), executionResults := s1.executionResults[1..])
    else s1.(currentRs := None)
  }

  /** `releaseResultSet`: the caller becomes the owner, the driver keeps a bare pointer. */
  function ReleaseResultSet(s: State): (State, Option<nat>) {
    (s.(resultSet := s.currentRs, currentRs := None), s.currentRs)
  }

  /** The result set an operation regards as the present one. */
  function Present(s: State): Option<nat> {
    if s.currentRs.Some? then s.currentRs else s.resultSet
  }

  function Settle(s: State, id: Option<nat>, close: bool): (r: State)
    ensures r == s.(rows := r.rows, more := r.more, fetchSize := r.fetchSize, active := r.active,
                    resultSet := r.resultSet)
    ensures s.pending != [] ==> r.fetchSize == s.fetchSize
    ensures r.rows.Keys == s.rows.Keys
    ensures forall i :: i in s.rows && Some(i) != id ==> r.rows[i] == s.rows[i]
    ensures id.Some? && id.value in s.rows ==>
      if !close && Sticks(s, id.value) then r.rows[id.value] == s.rows[id.value] else !Unread(r.rows[id.value])
    ensures r.more == if id.Some? && id.value in s.rows && s.rows[id.value].Streaming? && (close || !Sticks(s, id.value))
                      then s.pending != [] else s.more
    ensures r.resultSet == s.resultSet || r.resultSet == None
  {
    if id.None? then s else if close then CloseRows(s, id.value) else CacheRows(s, id.value)
  }

  /** What a caller of `getMoreResults` sees: the answer with the current result set and update
      count; or `Blocked`: the call never returns; or `Exhausted`: the client library was asked to
      move on although nothing was left, and what the driver reads then is left open. */
  datatype Outcome = Blocked | Exhausted | Answer(isResultSet: bool, rs: Option<nat>, updateCount: int)

  /** `getMoreResults` holds the connection's mutex, and `close()` of a result set that has not
      been read to its end locks it again. The mutex is not recursive. */
  predicate Blocks(s: State, close: bool) {
    close && Present(s).Some? && Present(s).value in s.rows && s.rows[Present(s).value].Streaming?
  }

  function Advance(s: State): (r: (State, bool))
    requires s.cmdInformation.Some?
    ensures r.0.cmdInformation == Some(s.cmdInformation.value.MoreResults().0)
    ensures r.0.binary == s.binary && r.0.unsafeMoves == s.unsafeMoves && r.0.rows == s.rows && r.0.taken == s.taken
  {
    var (cmd, more) := s.cmdInformation.value.MoreResults();
    var s1 := s.(cmdInformation := Some(cmd));
    if more && !s.batch then
      var s2 := if s1.executionResults == [] then s1
                else s1.(currentRs := Some(s1.executionResults[0]), executionResults := s1.executionResults[1..]);
      (s2, s2.currentRs.Some?)
    else
      var s2 := s1.(currentRs := None);
      (if cmd.GetUpdateCount() == -1 && s2.haveResultInWire
       then RemoveActive(s2.(haveResultInWire := false)) else s2, false)
  }

  /** `getMoreResults(current)`; `close` stands for CLOSE_CURRENT_RESULT, which is the default. */
  function GetMoreResults(s: State, close: bool): (r: (State, Outcome))
    requires s.cmdInformation.Some?
    ensures r.0.cmdInformation.Some? && r.0.binary == s.binary
  {
    if Blocks(s, close) then (s, Blocked) else MoveOn(s, close)
  }

  function MoveOn(s: State, close: bool): (r: (State, Outcome))
    requires s.cmdInformation.Some?
    ensures r.0.cmdInformation.Some? && r.0.binary == s.binary && r.1 != Blocked
  {
    var s1 := Settle(s, Present(s), close);
    if s1.haveResultInWire && s1.pending == [] then (Move(s1), Exhausted)
    else
      var s2 := if s1.haveResultInWire then GetResult(Move(s1)) else s1;
      var (s3, r) := Advance(s2);
      (s3, Answer(r, s3.currentRs, s3.cmdInformation.value.GetLargeUpdateCount()))
  }

  /** The loop of `loadFully(false)`. */
  function Drain(s: State): (r: State)
    ensures s.cmdInformation.Some? ==> r.cmdInformation.Some?
    ensures r.binary == s.binary
    decreases |s.pending|
  {
    if !s.more || s.pending == [] then s
    else Drain(GetResult(Move(s)))
  }

  /** The result set that `loadFully` looks after. */
  function Last(s: State): Option<nat> {
    var rs := if s.executionResults == [] then s.currentRs
              else Some(s.executionResults[|s.executionResults| - 1]);
    if rs.None? then s.resultSet else rs
  }

  /** `loadFully(skip)`. */
  function LoadFully(s: State, skip: bool): (r: State)
    ensures s.cmdInformation.Some? ==> r.cmdInformation.Some?
    ensures r.binary == s.binary
  {
    var s1 := Settle(s, Last(s), skip);
    if !s1.haveResultInWire then s1
    else if skip then SkipAllResults(s1)
    else Drain(s1.(cachingLocally := true)).(cachingLocally := false, haveResultInWire := false)
  }

  /** `skipAllResults`, guarded by the driver's own bit. */
  function SkipAllResults(s: State): State {
    if !s.more then s
    else RemoveActive(s.(pending := [], taken := s.taken + |s.pending|, more := false))
  }

  // ---------- draining ----------

  /** A result set that a streaming driver leaves on the wire. */
  predicate Open(e: Entry, f: nat) {
    e.Select? && !e.callable && 0 < f <= e.rowCount
  }

  /** One of those that `cacheCompleteLocally` will not read to the end. */
  predicate Stuck(e: Entry, f: nat, binary: bool) {
    binary && f > 1 && Open(e, f)
  }

  /** Draining empties the wire exactly when it can start and meets no stuck result set before
      the last response. */
  ghost predicate Drainable(s: State) {
    s.more && forall i :: 0 <= i < |s.pending| - 1 ==> !Stuck(s.pending[i], s.fetchSize, s.binary)
  }

  lemma DrainTurn(s: State)
    requires s.pending != [] && s.cachingLocally
    ensures var t := GetResult(Move(s));
      && t.pending == s.pending[1..] && t.cachingLocally && t.binary == s.binary
      && t.taken == s.taken + 1
      && (t.pending != [] ==> t.fetchSize == s.fetchSize)
      && t.more == (t.pending != [] && !Stuck(s.pending[0], s.fetchSize, s.binary))
  {
    hide AllRead;
  }

  lemma {:induction false} DrainEmptiesIff(s: State)
    requires s.cachingLocally
    ensures Drain(s).pending == [] <==> s.pending == [] || Drainable(s)
    ensures Drain(s).taken + |Drain(s).pending| == s.taken + |s.pending|
    decreases |s.pending|
  {
    if s.more && s.pending != [] {
      DrainTurn(s);
      var t := GetResult(Move(s));
      hide GetResult, Move, Stuck;
      DrainEmptiesIff(t);
      assert forall i :: 0 <= i < |t.pending| ==> t.pending[i] == s.pending[i + 1];
      if t.pending != [] {
        assert Drainable(s) <==> t.more && Drainable(t) by { DrainableTail(s, t); }
      }
    }
  }

  lemma DrainableTail(s: State, t: State)
    requires s.more && s.pending != [] && t.pending == s.pending[1..] != []
    requires t.fetchSize == s.fetchSize && t.binary == s.binary
    requires t.more == !Stuck(s.pending[0], s.fetchSize, s.binary)
    ensures Drainable(s) <==> Drainable(t)
  {
    hide Stuck;
    assert forall i :: 0 <= i < |t.pending| ==> t.pending[i] == s.pending[i + 1];
    if Drainable(t) {
      forall i | 0 <= i < |s.pending| - 1 ensures !Stuck(s.pending[i], s.fetchSize, s.binary) {
        if i > 0 { assert !Stuck(t.pending[i - 1], t.fetchSize, t.binary); }
      }
    }
  }

  /** `loadFully(false)` always ends, with nothing announced. It empties the wire exactly when
      something was announced, the driver's bit tells what is pending, and no stuck result set
      stands before the last response. */
  lemma LoadFullyDrainsIff(s: State)
    requires !s.cachingLocally
    ensures var s1, t := Settle(s, Last(s), false), LoadFully(s, false);
      && !t.cachingLocally && !t.haveResultInWire
      && t.taken + |t.pending| == s.taken + |s.pending|
      && (t.pending == [] <==> s.pending == [] || (s.haveResultInWire && Drainable(s1)))
  {
    DrainEmptiesIff(Settle(s, Last(s), false).(cachingLocally := true));
    hide Drain, Settle, Stuck;
  }

  /** `loadFully(true)` empties the wire when the driver's bit is right, but leaves the flag that
      says otherwise. */
  lemma LoadFullySkipsIff(s: State)
    requires s.haveResultInWire
    ensures var s1, t := Settle(s, Last(s), true), LoadFully(s, true);
      && t.haveResultInWire
      && (t.pending == [] <==> s.pending == [] || s1.more)
  {
    hide Settle;
  }

  /** A refused move is never taken for the end: `readErrorPacket` has recorded an error by then,
      and whatever is recorded behind it, the cursor comes to stand on that error. */
  lemma RefusedMoveAnswersWrong(s: State, counts: seq<int>, i: nat, behind: seq<int>)
    requires s.cmdInformation == Some(Multiple(counts, i)) && i + 1 == |counts|
    ensures var t := AddStatsError(s, false);
      && t.cmdInformation == Some(Multiple(counts + [EXECUTE_FAILED], i))
      && var u := Advance(t.(cmdInformation := Some(Multiple(counts + [EXECUTE_FAILED] + behind, i))));
         !u.1 && u.0.cmdInformation.value.GetLargeUpdateCount() == EXECUTE_FAILED
  {
    var all := counts + [EXECUTE_FAILED] + behind;
    assert all[i + 1] == EXECUTE_FAILED;
    hide Preface;
  }
}
