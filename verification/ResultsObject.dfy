/** `Results` as the object it is: methods that update its fields in place, each proved against
    the state machine of module ResultStream (src/Results.cpp). */
module ResultsObject {
  import opened Strings
  import RS = ResultStream

  /** The connection's side: the responses not yet taken, the result sets handed out, and whether
      this `Results` is the protocol's active streaming result. */
  class Protocol {
    var pending: seq<RS.Entry>
    var taken: nat
    /** The MORE_RESULTS_EXISTS bit of `serverStatus`. */
    var more: bool
    var active: bool
    var rows: map<nat, RS.RowState>

    constructor (stream: seq<RS.Entry>)
      ensures pending == stream && taken == 0 && more == (stream != []) && !active && rows == map[]
    {
      pending, taken, more, active, rows := stream, 0, stream != [], false, map[];
    }
  }

  class Results {
    var fetchSize: nat
    const batch: bool
    /** Results of a server-side prepared statement. */
    const binary: bool
    var cmdInformation: Option<RS.CmdInformation>
    var executionResults: seq<nat>
    var currentRs: Option<nat>
    var resultSet: Option<nat>
    var callableResultSet: Option<nat>
    var haveResultInWire: bool
    var cachingLocally: bool
    const protocol: Protocol
    ghost var removals: nat
    ghost var unsafeMoves: nat

    ghost function View(): RS.State
      reads this, protocol
    {
      RS.State(fetchSize, batch, binary, cmdInformation, executionResults, currentRs, resultSet, callableResultSet,
               haveResultInWire, cachingLocally, protocol.pending, protocol.taken, protocol.more,
               protocol.active, protocol.rows, removals, unsafeMoves)
    }

    constructor (protocol: Protocol, fetchSize: nat, batch: bool, binary: bool)
      requires protocol.taken == 0 && protocol.more == (protocol.pending != [])
      requires !protocol.active && protocol.rows == map[]
      ensures View() == RS.Fresh(protocol.pending, fetchSize, batch, binary) && this.protocol == protocol
    {
      this.protocol, this.fetchSize, this.batch, this.binary := protocol, fetchSize, batch, binary;
      cmdInformation, executionResults := None, [];
      currentRs, resultSet, callableResultSet := None, None, None;
      haveResultInWire, cachingLocally := false, false;
      removals, unsafeMoves := 0, 0;
    }

    method RemoveActiveStreamingResult()
      modifies this`fetchSize, protocol`active
      ensures View() == RS.RemoveActive(old(View()))
    {
      if protocol.active {
        fetchSize := 0;
        protocol.active := false;
      }
    }

    /** The end of the rows, in `readNextValue`. */
    method EndOfRows()
      modifies this`fetchSize, protocol`active, protocol`more
      ensures View() == RS.EndOfRows(old(View()))
    {
      protocol.more := protocol.pending != [];
      if !protocol.more {
        RemoveActiveStreamingResult();
      }
    }

    method ReadOut(id: nat, now: RS.RowState)
      modifies this`fetchSize, protocol`active, protocol`rows, protocol`more
      ensures View() == RS.ReadOut(old(View()), id, now)
    {
      if id in protocol.rows {
        var streaming := protocol.rows[id].Streaming?;
        protocol.rows := protocol.rows[id := now];
        if streaming {
          EndOfRows();
        }
      }
    }

    method CloseRows(id: nat)
      modifies this`fetchSize, this`resultSet, protocol`active, protocol`rows, protocol`more
      ensures View() == RS.CloseRows(old(View()), id)
    {
      ReadOut(id, RS.Closed);
      CheckOut(id);
    }

    /** `checkOut`: a result set that goes away is forgotten. */
    method CheckOut(iamleaving: nat)
      modifies this`resultSet
      ensures resultSet == if old(resultSet) == Some(iamleaving) then None else old(resultSet)
    {
      if resultSet == Some(iamleaving) {
        resultSet := None;
      }
    }

    method CacheCompleteLocally(id: nat)
      modifies this`fetchSize, protocol`active, protocol`rows, protocol`more
      ensures View() == RS.CacheRows(old(View()), id)
    {
      if id in protocol.rows {
        if binary && protocol.rows[id] == RS.Streaming(true) { return; }
        if RS.Unread(protocol.rows[id]) { ReadOut(id, RS.Cached); }
      }
    }

    method Settle(id: Option<nat>, close: bool)
      modifies this`fetchSize, this`resultSet, protocol`active, protocol`rows, protocol`more
      ensures View() == RS.Settle(old(View()), id, close)
    {
      if id.Some? {
        if close { CloseRows(id.value); } else { CacheCompleteLocally(id.value); }
      }
    }

    method Announce(moreResultAvailable: bool)
      modifies this`fetchSize, this`haveResultInWire, this`removals, protocol`active
      ensures View() == RS.Preface(old(View()), moreResultAvailable)
    {
      if haveResultInWire && !moreResultAvailable && fetchSize == 0 {
        RemoveActiveStreamingResult();
        removals := removals + 1;
      }
      haveResultInWire := moreResultAvailable;
    }

    method Record(stat: int, moreResultAvailable: bool)
      modifies this`cmdInformation
      ensures View() == RS.Record(old(View()), stat, moreResultAvailable)
    {
      if cmdInformation.None? {
        if batch {
          cmdInformation := Some(RS.Batch([]));
        } else if moreResultAvailable {
          cmdInformation := Some(RS.Multiple([], 0));
        } else {
          cmdInformation := Some(RS.Single(stat));
          return;
        }
      }
      cmdInformation := Some(cmdInformation.value.Add(stat));
    }

    method AddStats(updateCount: int, moreResultAvailable: bool)
      modifies this, protocol
      ensures View() == RS.AddStats(old(View()), updateCount, moreResultAvailable)
    {
      Announce(moreResultAvailable);
      Record(updateCount, moreResultAvailable);
    }

    method AddStatsError(moreResultAvailable: bool)
      modifies this, protocol
      ensures View() == RS.AddStatsError(old(View()), moreResultAvailable)
    {
      Announce(moreResultAvailable);
      Record(RS.EXECUTE_FAILED, moreResultAvailable);
    }

    method AddResultSet(id: nat, callable: bool, moreResultAvailable: bool)
      modifies this, protocol
      ensures View() == RS.AddResultSet(old(View()), id, callable, moreResultAvailable)
    {
      Announce(moreResultAvailable);
      if callable {
        callableResultSet := Some(id);
        return;
      }
      executionResults := executionResults + [id];
      if cachingLocally {
        CacheCompleteLocally(id);
      }
      Record(RS.RESULT_SET_VALUE, moreResultAvailable);
    }

    /** The client library hands over the next response. */
    method TakeEntry() returns (e: RS.Entry)
      requires protocol.pending != []
      modifies protocol
      ensures e == old(View()).pending[0]
      ensures var s := old(View());
        View() == s.(pending := s.pending[1..], taken := s.taken + 1, more := s.pending[1..] != [])
    {
      e := protocol.pending[0];
      protocol.pending, protocol.taken := protocol.pending[1..], protocol.taken + 1;
      protocol.more := protocol.pending != [];
    }

    /** `Protocol::getResult` for this object. */
    method GetResult()
      requires protocol.pending != []
      modifies this, protocol
      ensures View() == RS.GetResult(old(View()))
    {
      hide RS.AddStats, RS.ReadResultSet;
      var id := protocol.taken;
      var e := TakeEntry();
      if e.Update? {
        AddStats(e.count, protocol.more);
      } else {
        ReadResultSet(id, e.callable, e.rowCount);
      }
    }

    /** The constructors of result sets, up to the first batch of rows. */
    method Construct(id: nat, callable: bool, rowCount: nat)
      modifies this`fetchSize, protocol`active, protocol`rows, protocol`more
      ensures View() == RS.Construct(old(View()), id, callable, rowCount)
    {
      if fetchSize == 0 || callable {
        protocol.rows := protocol.rows[id := if binary then RS.Buffered else RS.Cached];
      } else {
        protocol.active := true;
        protocol.more := false;
        protocol.rows := protocol.rows[id := RS.Streaming(fetchSize > 1)];
        if rowCount < fetchSize { ReadOut(id, RS.Cached); }
      }
    }

    method ReadResultSet(id: nat, callable: bool, rowCount: nat)
      modifies this, protocol
      ensures View() == RS.ReadResultSet(old(View()), id, callable, rowCount)
    {
      hide RS.AddResultSet, RS.Construct;
      Construct(id, callable, rowCount);
      var pendingResults := protocol.more || fetchSize > 0;
      AddResultSet(id, callable, pendingResults);
      if pendingResults { protocol.active := true; }
    }

    ghost method MoveToNextResult()
      modifies this`unsafeMoves
      ensures View() == RS.Move(old(View()))
    {
      if !RS.AllRead(View()) { unsafeMoves := unsafeMoves + 1; }
    }

    method CommandEnd() returns (hasInformation: bool)
      modifies this
      ensures View() == RS.CommandEnd(old(View())) && hasInformation == cmdInformation.Some?
    {
      resultSet := None;
      if cmdInformation.Some? {
        if executionResults != [] && !cmdInformation.value.IsCurrentUpdateCount() {
          currentRs := Some(executionResults[0]);
          executionResults := executionResults[1..];
        } else {
          currentRs := None;
        }
        return true;
      }
      currentRs := None;
      return false;
    }

    method ReleaseResultSet() returns (rs: Option<nat>)
      modifies this
      ensures (View(), rs) == RS.ReleaseResultSet(old(View()))
    {
      resultSet := currentRs;
      currentRs := None;
      return resultSet;
    }

    method LoadFully(skip: bool)
      modifies this, protocol
      ensures View() == RS.LoadFully(old(View()), skip)
    {
      hide RS.Drain, RS.Settle, RS.SkipAllResults;
      var rs := if executionResults == [] then currentRs else Some(executionResults[|executionResults| - 1]);
      if rs.None? { rs := resultSet; }
      Settle(rs, skip);
      if haveResultInWire {
        if skip {
          SkipAllResults();
          return;
        }
        cachingLocally := true;
        Drain();
        cachingLocally := false;
        haveResultInWire := false;
      }
    }

    /** The loop of `loadFully`. */
    method Drain()
      modifies this, protocol
      ensures View() == RS.Drain(old(View()))
    {
      hide RS.GetResult, RS.Move;
      while protocol.more && protocol.pending != []
        invariant RS.Drain(View()) == RS.Drain(old(View()))
        decreases |protocol.pending|
      {
        MoveToNextResult();
        GetResult();
      }
    }

    /** `Protocol::skipAllResults`. */
    method SkipAllResults()
      modifies this`fetchSize, protocol
      ensures View() == RS.SkipAllResults(old(View()))
    {
      if protocol.more {
        protocol.taken := protocol.taken + |protocol.pending|;
        protocol.pending := [];
        protocol.more := false;
        RemoveActiveStreamingResult();
      }
    }

    /** `getMoreResults(current)`. `Blocked` stands for a call that never returns; what is read
        behind `Exhausted` is left open. */
    method GetMoreResults(close: bool) returns (o: RS.Outcome)
      requires cmdInformation.Some?
      modifies this, protocol
      ensures cmdInformation.Some?
      ensures (View(), o) == RS.GetMoreResults(old(View()), close)
    {
      hide RS.Settle, RS.GetResult, RS.Advance, RS.Move;
      var rs := if currentRs.Some? then currentRs else resultSet;
      if close && rs.Some? && rs.value in protocol.rows && protocol.rows[rs.value].Streaming? {
        return RS.Blocked;
      }
      Settle(rs, close);
      if haveResultInWire {
        MoveToNextResult();
        if protocol.pending == [] { return RS.Exhausted; }
        GetResult();
      }
      var isResultSet := Advance();
      return RS.Answer(isResultSet, currentRs, cmdInformation.value.GetLargeUpdateCount());
    }

    method Advance() returns (isResultSet: bool)
      requires cmdInformation.Some?
      modifies this, protocol
      ensures cmdInformation.Some? && (View(), isResultSet) == RS.Advance(old(View()))
    {
      var (cmd, more) := cmdInformation.value.MoreResults();
      cmdInformation := Some(cmd);
      if more && !batch {
        if executionResults != [] {
          currentRs := Some(executionResults[0]);
          executionResults := executionResults[1..];
        }
        return currentRs.Some?;
      }
      currentRs := None;
      if cmd.GetUpdateCount() == -1 && haveResultInWire {
        haveResultInWire := false;
        RemoveActiveStreamingResult();
      }
      return false;
    }
  }
}
