/** How `Results` records a stream of responses (src/Results.cpp:161-271): the kind of the
    statistics record, its contents, and when the protocol is told that streaming is over. */
module ResultFeed {
  import opened Strings
  import opened ResultStream

  /** One call of `addStats`, `addStatsError` or `addResultSet`. */
  datatype Call = Stats(count: int) | Error | Rows(id: nat, callable: bool)

  function Add(s: State, call: Call, more: bool): State {
    match call
    case Stats(n) => AddStats(s, n, more)
    case Error => AddStatsError(s, more)
    case Rows(id, callable) => AddResultSet(s, id, callable, more)
  }

  /** A well-formed stream of calls announces more on every call but the last. */
  function Feed(s: State, calls: seq<Call>): State
    decreases |calls|
  {
    if calls == [] then s else Feed(Add(s, calls[0], |calls| > 1), calls[1..])
  }

  predicate Callable(call: Call) {
    call.Rows? && call.callable
  }

  function StatOf(call: Call): int {
    match call case Stats(n) => n case Error => EXECUTE_FAILED case Rows(_, _) => RESULT_SET_VALUE
  }

  /** The statistics of the calls that are not for a callable's output. */
  function StatsOf(calls: seq<Call>): seq<int> {
    if calls == [] then []
    else (if Callable(calls[0]) then [] else [StatOf(calls[0])]) + StatsOf(calls[1..])
  }

  function RowsOf(calls: seq<Call>): seq<nat> {
    if calls == [] then []
    else (if calls[0].Rows? && !calls[0].callable then [calls[0].id] else []) + RowsOf(calls[1..])
  }

  /** The record after the calls: its kind is settled by the first call that counts. */
  function RecordOf(calls: seq<Call>, batch: bool): Option<CmdInformation> {
    if calls == [] then None
    else if Callable(calls[0]) then RecordOf(calls[1..], batch)
    else if batch then Some(Batch(StatsOf(calls)))
    else if |calls| > 1 then Some(Multiple(StatsOf(calls), 0))
    else Some(Single(StatOf(calls[0])))
  }

  /** What one call does, when nothing is fetched in batches. */
  ghost predicate Added(s: State, call: Call, more: bool, t: State) {
    && t.fetchSize == 0 && t.batch == s.batch && t.haveResultInWire == more
    && t.removals == s.removals + (if s.haveResultInWire && !more then 1 else 0)
    && t.executionResults == s.executionResults + (if call.Rows? && !call.callable then [call.id] else [])
    && t.cmdInformation == if Callable(call) then s.cmdInformation
         else Some(Recorded(s.cmdInformation, s.batch, StatOf(call), more))
  }

  lemma AddOneRows(s: State, id: nat, callable: bool, more: bool)
    requires s.fetchSize == 0
    ensures Added(s, Rows(id, callable), more, AddResultSet(s, id, callable, more))
  {
    hide Preface, Recorded, AddResultSet;
  }

  lemma AddOneStat(s: State, call: Call, stat: int, more: bool)
    requires s.fetchSize == 0 && !call.Rows? && StatOf(call) == stat
    ensures Added(s, call, more, Record(Preface(s, more), stat, more))
  {
    hide Preface, Recorded;
  }

  lemma AddOne(s: State, call: Call, more: bool)
    requires s.fetchSize == 0
    ensures Added(s, call, more, Add(s, call, more))
  {
    match call
    case Stats(n) => AddOneStat(s, call, n, more); hide Added, Record, Preface;
    case Error => AddOneStat(s, call, EXECUTE_FAILED, more); hide Added, Record, Preface;
    case Rows(id, callable) => AddOneRows(s, id, callable, more); hide Added, AddResultSet;
  }

  /** The record after the calls, from any record to which calls can still be added. */
  function After(cmd: Option<CmdInformation>, batch: bool, calls: seq<Call>): Option<CmdInformation> {
    match cmd
    case None => RecordOf(calls, batch)
    case Some(Multiple(counts, i)) => Some(Multiple(counts + StatsOf(calls), i))
    case Some(Batch(counts)) => Some(Batch(counts + StatsOf(calls)))
    case Some(Single(_)) => None
  }

  function Next(cmd: Option<CmdInformation>, batch: bool, call: Call, more: bool): Option<CmdInformation> {
    if Callable(call) then cmd else Some(Recorded(cmd, batch, StatOf(call), more))
  }

  predicate Open(cmd: Option<CmdInformation>) {
    cmd.None? || !cmd.value.Single?
  }

  lemma AfterCons(cmd: Option<CmdInformation>, batch: bool, calls: seq<Call>)
    requires calls != [] && Open(cmd)
    ensures var next := Next(cmd, batch, calls[0], |calls| > 1);
            if |calls| == 1 then After(cmd, batch, calls) == next
            else Open(next) && After(cmd, batch, calls) == After(next, batch, calls[1..])
  {
    var x, rest := StatOf(calls[0]), StatsOf(calls[1..]);
    if |calls| == 1 { assert calls[1..] == [] && rest == [] && RecordOf(calls[1..], batch) == None; }
    assert [] + [x] == [x] + [] == [x] && [] + rest == rest;
    assert StatsOf(calls) == if Callable(calls[0]) then rest else [x] + rest;
    var next := Next(cmd, batch, calls[0], |calls| > 1);
    if cmd.None? && |calls| > 1 {
      if Callable(calls[0]) {
        assert RecordOf(calls, batch) == RecordOf(calls[1..], batch);
      } else {
        assert next == Some(if batch then Batch([x]) else Multiple([x], 0));
        assert RecordOf(calls, batch) == Some(if batch then Batch([x] + rest) else Multiple([x] + rest, 0));
        assert batch ==> After(next, batch, calls[1..]) == Some(Batch([x] + rest));
        assert !batch ==> After(next, batch, calls[1..]) == Some(Multiple([x] + rest, 0));
      }
    } else if cmd.Some? {
      var counts := cmd.value.updateCounts;
      assert counts + [] == counts && counts + [x] + rest == counts + ([x] + rest);
    }
  }

  lemma {:induction false} FeedOn(s: State, calls: seq<Call>)
    requires s.fetchSize == 0 && calls != [] && Open(s.cmdInformation)
    ensures var t := Feed(s, calls);
      && !t.haveResultInWire
      && t.removals == s.removals + (if s.haveResultInWire || |calls| > 1 then 1 else 0)
      && t.executionResults == s.executionResults + RowsOf(calls)
      && t.cmdInformation == After(s.cmdInformation, s.batch, calls)
    decreases |calls|
  {
    AddTurn(s, calls);
    AfterCons(s.cmdInformation, s.batch, calls);
    RowsAppend(s.executionResults, calls);
    hide *;
    if |calls| > 1 { FeedOn(Add(s, calls[0], true), calls[1..]); }
  }

  function Own(call: Call): seq<nat> {
    if call.Rows? && !call.callable then [call.id] else []
  }

  lemma AddTurn(s: State, calls: seq<Call>)
    requires s.fetchSize == 0 && calls != []
    ensures var t := Add(s, calls[0], |calls| > 1);
      && Feed(s, calls) == (if |calls| == 1 then t else Feed(t, calls[1..]))
      && t.fetchSize == 0 && t.batch == s.batch && t.haveResultInWire == (|calls| > 1)
      && t.removals == s.removals + (if s.haveResultInWire && |calls| == 1 then 1 else 0)
      && t.executionResults == s.executionResults + Own(calls[0])
      && t.cmdInformation == Next(s.cmdInformation, s.batch, calls[0], |calls| > 1)
  {
    AddOne(s, calls[0], |calls| > 1);
    hide Add;
  }

  lemma RowsAppend(queue: seq<nat>, calls: seq<Call>)
    requires calls != []
    ensures queue + RowsOf(calls) == queue + Own(calls[0]) + RowsOf(calls[1..])
    ensures |calls| == 1 ==> queue + RowsOf(calls) == queue + Own(calls[0])
  {
    if |calls| == 1 { assert calls[1..] == []; }
  }

  /** On every well-formed stream, with fetch size 0: the kind of the record is fixed by the first
      response that is not a callable's output and whether it is the last; the record holds one
      statistic for each such response (so a Single one is never sent another); and the protocol
      is told once that streaming is over exactly when there was more than one response. */
  lemma FeedRecords(calls: seq<Call>, batch: bool, binary: bool, stream: seq<Entry>)
    requires calls != []
    ensures var t := Feed(Fresh(stream, 0, batch, binary), calls);
      && t.cmdInformation == RecordOf(calls, batch)
      && t.removals == (if |calls| > 1 then 1 else 0)
      && t.executionResults == RowsOf(calls) && !t.haveResultInWire
      && (t.cmdInformation.None? <==> StatsOf(calls) == [])
      && (t.cmdInformation.Some? ==> t.cmdInformation.value.Size() == |StatsOf(calls)|)
      && (t.cmdInformation.Some? && t.cmdInformation.value.Single? ==> StatsOf(calls) == [t.cmdInformation.value.updateCount])
  {
    FeedOn(Fresh(stream, 0, batch, binary), calls);
    RecordSize(calls, batch);
    assert [] + RowsOf(calls) == RowsOf(calls);
  }

  lemma {:induction false} RecordSize(calls: seq<Call>, batch: bool)
    ensures var r := RecordOf(calls, batch);
      && (r.None? <==> StatsOf(calls) == [])
      && (r.Some? ==> r.value.Size() == |StatsOf(calls)|)
      && (r.Some? && r.value.Single? ==> StatsOf(calls) == [r.value.updateCount])
    decreases |calls|
  {
    if calls != [] {
      RecordSize(calls[1..], batch);
      if |calls| == 1 { assert calls[1..] == []; }
    }
  }

  /** Call `k` is the last one for a callable's output. */
  predicate LastCallable(calls: seq<Call>, k: nat) {
    k < |calls| && Callable(calls[k]) && forall j :: k < j < |calls| ==> !Callable(calls[j])
  }

  lemma AddCallable(s: State, call: Call, more: bool)
    ensures Add(s, call, more).callableResultSet == if Callable(call) then Some(call.id) else s.callableResultSet
  {
    hide Preface, CacheRows, Recorded;
  }

  /** After the calls the callable's output is the result set of the last such call, from any
      state and with any fetch size; without such a call it is what it was. */
  lemma {:induction false} FeedCallable(s: State, calls: seq<Call>)
    ensures forall k: nat :: LastCallable(calls, k) ==> Feed(s, calls).callableResultSet == Some(calls[k].id)
    ensures (forall k :: 0 <= k < |calls| ==> !Callable(calls[k])) ==>
      Feed(s, calls).callableResultSet == s.callableResultSet
    decreases |calls|
  {
    if calls != [] {
      var t, rest := Add(s, calls[0], |calls| > 1), calls[1..];
      AddCallable(s, calls[0], |calls| > 1);
      hide Add, Callable;
      FeedCallable(t, rest);
      assert forall j :: 0 < j < |calls| ==> calls[j] == rest[j - 1];
      forall k: nat | LastCallable(calls, k) ensures Feed(s, calls).callableResultSet == Some(calls[k].id) {
        if k > 0 {
          assert LastCallable(rest, k - 1);
        } else {
          assert forall j :: 0 <= j < |rest| ==> rest[j] == calls[j + 1];
        }
      }
    }
  }
}
