/** Prepared batches: the recorded parameter sets (src/BasePrepareStatement.cpp:1449-1511,
    src/ClientSidePreparedStatement.cpp:330-334) and the one-by-one execution that is used when the
    protocol cannot send the batch whole (src/ClientSidePreparedStatement.cpp:241-293). */
module Batches {
  import opened Strings

  // ---------- recorded parameter sets ----------

  /** A call on the statement. */
  datatype Op<Param> = Set(parameterIndex: int, holder: Param) | ClearParams | Add | Clear

  /** What the calls left in slot `k`: the last one that spoke of it decides. */
  function Slot<Param>(log: seq<Op<Param>>, k: nat): Option<Param>
    decreases |log|
  {
    if log == [] then None
    else
      var front := log[..|log| - 1];
      match log[|log| - 1]
      case Set(i, holder) => if i == k + 1 then Some(holder) else Slot(front, k)
      case ClearParams => None
      case Add => Slot(front, k)
      case Clear => Slot(front, k)
  }

  /** Call `j` set slot `k`, and no later call set it again or cleared the parameters. */
  ghost predicate SetLast<Param>(log: seq<Op<Param>>, k: nat, j: nat, holder: Param) {
    && j < |log| && log[j] == Set(k + 1, holder)
    && forall i :: j < i < |log| ==> !SpeaksOf(log[i], k)
  }

  predicate SpeaksOf<Param>(op: Op<Param>, k: nat) {
    op.ClearParams? || (op.Set? && op.parameterIndex == k + 1)
  }

  /** A slot holds what the last call that set it gave it, unless the parameters were cleared
      since; so setting it again replaces the holder. */
  lemma {:induction false} SlotIff<Param>(log: seq<Op<Param>>, k: nat, holder: Param)
    ensures Slot(log, k) == Some(holder) <==> exists j: nat :: SetLast(log, k, j, holder)
    decreases |log|
  {
    if log != [] {
      var front, last := log[..|log| - 1], log[|log| - 1];
      SlotIff(front, k, holder);
      forall j: nat ensures SetLast(log, k, j, holder) <==>
        if j == |log| - 1 then last == Set(k + 1, holder) else SetLast(front, k, j, holder) && !SpeaksOf(last, k)
      {
        assert forall i :: 0 <= i < |front| ==> front[i] == log[i];
      }
      if last.Set? && last.parameterIndex == k + 1 {
        assert last.holder == holder ==> SetLast(log, k, |log| - 1, holder);
      } else if !SpeaksOf(last, k) {
        if j: nat :| SetLast(front, k, j, holder) { assert SetLast(log, k, j, holder); }
      }
      hide SetLast;
    }
  }

  ghost predicate Complete<Param>(log: seq<Op<Param>>, n: nat) {
    forall k: nat :: k < n ==> Slot(log, k).Some?
  }

  function Snapshot<Param>(log: seq<Op<Param>>, n: nat): (row: seq<Option<Param>>) {
    seq(n, k requires 0 <= k < n => Slot(log, k))
  }

  /** Call `j` recorded a parameter set that is still in the batch: every slot was set, and no
      `clearBatch` came later. */
  ghost predicate Counts<Param>(log: seq<Op<Param>>, n: nat, j: nat) {
    && j < |log| && log[j].Add? && Complete(log[..j], n)
    && forall i :: j < i < |log| ==> !log[i].Clear?
  }

  /** `list` holds, in order, the parameters as they were at exactly the calls that count, `at`. */
  ghost predicate IsHistory<Param>(log: seq<Op<Param>>, n: nat, list: seq<seq<Option<Param>>>, at: seq<nat>) {
    && |list| == |at|
    && (forall i :: 0 <= i < |at| ==> Counts(log, n, at[i]) && list[i] == Snapshot(log[..at[i]], n))
    && (forall i, j :: 0 <= i < j < |at| ==> at[i] < at[j])
    && (forall j: nat :: Counts(log, n, j) ==> j in at)
  }

  /** The calls alone determine the batch. */
  lemma HistoryUnique<Param>(log: seq<Op<Param>>, n: nat, list: seq<seq<Option<Param>>>, at: seq<nat>,
                             list': seq<seq<Option<Param>>>, at': seq<nat>)
    requires IsHistory(log, n, list, at) && IsHistory(log, n, list', at')
    ensures list == list'
  {
    hide Counts;
    forall j: nat ensures j in at <==> j in at' {
      if j in at { assert Counts(log, n, j); }
      if j in at' { assert Counts(log, n, j); }
    }
    IncreasingUnique(at, at');
  }

  predicate Increasing(a: seq<nat>) {
    forall i, j :: 0 <= i < j < |a| ==> a[i] < a[j]
  }

  ghost predicate SameMembers(a: seq<nat>, b: seq<nat>) {
    forall x: nat :: x in a <==> x in b
  }

  lemma {:induction false} IncreasingUnique(a: seq<nat>, b: seq<nat>)
    requires Increasing(a) && Increasing(b) && SameMembers(a, b)
    ensures a == b
  {
    SameHead(a, b);
    hide *;
    if a != [] {
      IncreasingUnique(a[1..], b[1..]);
      assert a == [a[0]] + a[1..] && b == [b[0]] + b[1..];
    }
  }

  lemma SameHead(a: seq<nat>, b: seq<nat>)
    requires Increasing(a) && Increasing(b) && SameMembers(a, b)
    ensures a == [] <==> b == []
    ensures a != [] ==> a[0] == b[0] && Increasing(a[1..]) && Increasing(b[1..]) && SameMembers(a[1..], b[1..])
  {
    assert (forall i :: 0 <= i < |a| ==> a[i] in b) && (forall i :: 0 <= i < |b| ==> b[i] in a);
    assert (a != [] ==> a[0] in b) && (b != [] ==> b[0] in a);
    if a != [] {
      assert a[0] == b[0];
      RestOf(a);
      RestOf(b);
    }
  }

  lemma RestOf(a: seq<nat>)
    requires a != [] && Increasing(a)
    ensures forall x: nat :: x in a[1..] <==> x in a && x != a[0]
  {
    assert forall i :: 0 < i < |a| ==> a[0] < a[i];
    forall x: nat ensures x in a[1..] <==> x in a && x != a[0] {
      assert a == [a[0]] + a[1..];
    }
  }

  lemma LastCall<Param>(log: seq<Op<Param>>, op: Op<Param>, n: nat)
    ensures var next := log + [op];
      && next[..|log|] == log && next[|log|] == op
      && (forall j: nat :: j < |log| ==> next[..j] == log[..j] && next[j] == log[j])
      && (forall j: nat :: Counts(next, n, j) <==>
            (Counts(log, n, j) && !op.Clear?) || (j == |log| && op.Add? && Complete(log, n)))
  {
    var next := log + [op];
    assert next[..|log|] == log;
    assert forall j: nat :: j < |log| ==> next[..j] == log[..j];
    forall j: nat
      ensures Counts(next, n, j) <==>
        (Counts(log, n, j) && !op.Clear?) || (j == |log| && op.Add? && Complete(log, n))
    {
      if Counts(log, n, j) && op.Clear? { assert next[|log|].Clear?; }
      hide Complete;
    }
  }

  /** Setting or clearing parameters later, or an incomplete set, changes nothing in the batch. */
  lemma HistoryKept<Param>(log: seq<Op<Param>>, op: Op<Param>, n: nat, list: seq<seq<Option<Param>>>, at: seq<nat>)
    requires IsHistory(log, n, list, at) && !op.Clear? && (op.Add? ==> !Complete(log, n))
    ensures IsHistory(log + [op], n, list, at)
  {
    LastCall(log, op, n);
    forall i | 0 <= i < |at| ensures (log + [op])[..at[i]] == log[..at[i]] {
      assert Counts(log, n, at[i]);
    }
    hide Counts, Snapshot, Complete;
  }

  lemma HistoryGrows<Param>(log: seq<Op<Param>>, n: nat, list: seq<seq<Option<Param>>>, at: seq<nat>)
    requires IsHistory(log, n, list, at) && Complete(log, n)
    ensures IsHistory(log + [Add], n, list + [Snapshot(log, n)], at + [|log|])
  {
    var next := log + [Op<Param>.Add];
    LastCall(log, Add, n);
    forall i | 0 <= i < |at| ensures at[i] < |log| && next[..at[i]] == log[..at[i]] {
      assert Counts(log, n, at[i]);
    }
    forall j: nat | Counts(next, n, j) ensures j in at + [|log|] {
      assert Counts(log, n, j) ==> j in at;
    }
    assert Counts(next, n, |log|);
    hide Counts, Snapshot, Complete;
  }

  lemma HistoryCleared<Param>(log: seq<Op<Param>>, n: nat)
    ensures IsHistory(log + [Clear], n, [], [])
  {
    LastCall(log, Clear, n);
  }

  class PreparedStatement<Param> {
    const paramCount: nat
    var parameters: seq<Option<Param>>
    var parameterList: seq<seq<Option<Param>>>
    /** All calls so far, and which of them the batch consists of. */
    ghost var log: seq<Op<Param>>
    ghost var at: seq<nat>

    ghost predicate Valid()
      reads this
    {
      && parameters == Snapshot(log, paramCount)
      && IsHistory(log, paramCount, parameterList, at)
    }

    constructor (paramCount: nat)
      ensures Valid() && this.paramCount == paramCount && log == [] && parameterList == []
      ensures parameters == seq(paramCount, _ => None)
    {
      this.paramCount := paramCount;
      parameterList, log, at := [], [], [];
      parameters := seq(paramCount, _ => None);
    }

    /** `clone`: the same statement, without its parameters and batch. */
    constructor Clone(other: PreparedStatement<Param>)
      ensures Valid() && paramCount == other.paramCount && log == [] && parameterList == []
      ensures parameters == seq(paramCount, _ => None)
    {
      paramCount := other.paramCount;
      parameterList, log, at := [], [], [];
      parameters := seq(other.paramCount, _ => None);
    }

    method SetParameter(parameterIndex: int, holder: Param) returns (ok: bool)
      requires Valid()
      modifies this`parameters, this`log
      ensures Valid() && log == old(log) + [Set(parameterIndex, holder)]
      ensures ok == (1 <= parameterIndex <= paramCount) && |parameters| == |old(parameters)| == paramCount
      ensures parameters == if ok then old(parameters)[parameterIndex - 1 := Some(holder)] else old(parameters)
    {
      ghost var before := log;
      HistoryKept(log, Set(parameterIndex, holder), paramCount, parameterList, at);
      log := log + [Set(parameterIndex, holder)];
      assert log[..|log| - 1] == before;
      ok := parameterIndex >= 1 && parameterIndex < paramCount + 1;
      if ok {
        parameters := parameters[parameterIndex - 1 := Some(holder)];
      }
      hide IsHistory;
    }

    /** The first position (from 1) that is not set, or 0. */
    method ValidateParamset() returns (missing: nat)
      requires Valid()
      ensures missing == 0 <==> Complete(log, paramCount)
      ensures missing == 0 <==> forall i :: 0 <= i < |parameters| ==> parameters[i].Some?
      ensures missing <= paramCount && forall i :: 0 <= i < missing - 1 ==> parameters[i].Some?
      ensures missing > 0 ==> parameters[missing - 1].None?
    {
      for i := 0 to paramCount
        invariant forall k :: 0 <= k < i ==> parameters[k].Some?
      {
        if parameters[i].None? {
          assert Slot(log, i).None?;
          return i + 1;
        }
      }
      assert forall k: nat :: k < paramCount ==> parameters[k] == Slot(log, k);
      return 0;
    }

    method ClearParameters()
      requires Valid()
      modifies this`parameters, this`log
      ensures Valid() && log == old(log) + [ClearParams]
      ensures |parameters| == paramCount && forall i :: 0 <= i < paramCount ==> parameters[i] == None
    {
      HistoryKept(log, ClearParams, paramCount, parameterList, at);
      log := log + [ClearParams];
      parameters := seq(paramCount, _ => None);
      hide IsHistory;
    }

    /** Throws for the missing position, or appends copies of all parameters. */
    method AddBatch() returns (missing: nat)
      requires Valid()
      modifies this`parameterList, this`log, this`at
      ensures Valid() && log == old(log) + [Add]
      ensures missing == 0 <==> forall i :: 0 <= i < |parameters| ==> parameters[i].Some?
      ensures 0 < missing ==> missing <= |parameters| && parameters[missing - 1] == None
      ensures forall i :: 0 <= i < missing - 1 && i < |parameters| ==> parameters[i].Some?
      ensures parameterList == if missing == 0 then old(parameterList) + [parameters] else old(parameterList)
    {
      ghost var before := log;
      missing := ValidateParamset();
      if missing == 0 {
        var row: seq<Option<Param>> := [];
        for i := 0 to |parameters|
          invariant row == parameters[..i]
        {
          row := row + [parameters[i]];
        }
        assert row == Snapshot(log, paramCount);
        HistoryGrows(log, paramCount, parameterList, at);
        parameterList := parameterList + [row];
        at := at + [|log|];
      } else {
        HistoryKept(log, Add, paramCount, parameterList, at);
      }
      log := log + [Add];
      assert log[..|log| - 1] == before;
      hide IsHistory;
    }

    method ClearBatch()
      requires Valid()
      modifies this`parameterList, this`log, this`at
      ensures Valid() && log == old(log) + [Clear] && parameterList == []
    {
      ghost var before := log;
      HistoryCleared(log, paramCount);
      log := log + [Clear];
      assert log[..|log| - 1] == before;
      parameterList, at := [], [];
      hide IsHistory;
    }
  }

  // ---------- one-by-one execution ----------

  /** The server's reply to one row: fine, or an exception with its message. */
  datatype Reply = Fine | Failure(message: string)

  /** The index of the first failing row, or the number of rows. */
  function FirstFailure(replies: seq<Reply>): (n: nat)
    ensures n <= |replies| && forall i :: 0 <= i < n ==> replies[i].Fine?
    ensures n < |replies| ==> replies[n].Failure?
  {
    if replies == [] || replies[0].Failure? then 0 else 1 + FirstFailure(replies[1..])
  }

  function LastFailure(replies: seq<Reply>): (r: Reply)
  {
    if replies == [] then Fine
    else if replies[|replies| - 1].Failure? then replies[|replies| - 1]
    else LastFailure(replies[..|replies| - 1])
  }

  /** How the loop ends: normally, with a row's exception, or interrupted. */
  datatype Ending = Normal | Thrown(message: string) | Interrupted

  /** Both loops of the fallback; `interrupted[i]` is what `stopIfInterrupted` finds before row
      `i`, which only the loop with a query timeout asks. `attempted` counts the rows sent. */
  method ExecuteOneByOne(replies: seq<Reply>, interrupted: seq<bool>, queryTimeout: nat, continueBatchOnError: bool)
    returns (attempted: nat, ending: Ending)
    requires |interrupted| == |replies|
    ensures attempted <= |replies|
    ensures ending == Interrupted ==> queryTimeout > 0 && attempted < |replies| && interrupted[attempted]
    ensures queryTimeout > 0 ==> forall i :: 0 <= i < attempted ==> !interrupted[i]
    ensures ending == Interrupted && !continueBatchOnError ==> attempted <= FirstFailure(replies)
    ensures ending != Interrupted && !continueBatchOnError ==>
      var n := FirstFailure(replies);
      if n < |replies| then attempted == n + 1 && ending == Thrown(replies[n].message)
      else attempted == n && ending == Normal
    ensures ending != Interrupted && continueBatchOnError ==>
      attempted == |replies| && ending ==
        match LastFailure(replies)
        case Fine => Normal
        case Failure(message) => if message != "" then Thrown(message) else Normal
  {
    var message := "";
    attempted := 0;
    while attempted < |replies|
      invariant attempted <= |replies|
      invariant queryTimeout > 0 ==> forall i :: 0 <= i < attempted ==> !interrupted[i]
      invariant !continueBatchOnError ==> message == "" && attempted <= FirstFailure(replies)
      invariant continueBatchOnError ==>
        message == (match LastFailure(replies[..attempted]) case Fine => "" case Failure(m) => m)
    {
      if queryTimeout > 0 && interrupted[attempted] {
        return attempted, Interrupted;
      }
      var reply := replies[attempted];
      assert replies[..attempted + 1][..attempted] == replies[..attempted];
      attempted := attempted + 1;
      if reply.Failure? {
        if continueBatchOnError {
          message := reply.message;
        } else {
          FirstFailureIs(replies, attempted - 1);
          return attempted, Thrown(reply.message);
        }
      } else if !continueBatchOnError {
        assert FirstFailure(replies) != attempted - 1;
      }
    }
    assert replies[..attempted] == replies;
    return attempted, if message != "" then Thrown(message) else Normal;
  }

  lemma {:induction false} FirstFailureIs(replies: seq<Reply>, n: nat)
    requires n < |replies| && replies[n].Failure? && n <= FirstFailure(replies)
    ensures FirstFailure(replies) == n
  {
  }

  /** Row `k` failed and no later one did. */
  ghost predicate FailedLast(replies: seq<Reply>, k: nat) {
    k < |replies| && replies[k].Failure? && forall i :: k < i < |replies| ==> replies[i].Fine?
  }

  lemma {:induction false} LastFailureIs(replies: seq<Reply>, k: nat)
    requires FailedLast(replies, k)
    ensures LastFailure(replies) == replies[k]
  {
    if k < |replies| - 1 { LastFailureIs(replies[..|replies| - 1], k); }
  }

  lemma {:induction false} LastFailureFound(replies: seq<Reply>) returns (k: nat)
    requires LastFailure(replies).Failure?
    ensures FailedLast(replies, k)
  {
    if replies[|replies| - 1].Failure? { k := |replies| - 1; } else { k := LastFailureFound(replies[..|replies| - 1]); }
  }

  /** With `continueBatchOnError` the failures of a batch are reported exactly when the last one
      carries a message; an earlier message alone is lost. */
  lemma FailuresReportedIff(replies: seq<Reply>)
    ensures (LastFailure(replies).Failure? && LastFailure(replies).message != "")
        <==> exists k: nat :: FailedLast(replies, k) && replies[k].message != ""
  {
    if LastFailure(replies).Failure? {
      var k := LastFailureFound(replies);
      LastFailureIs(replies, k);
    }
    forall k: nat | FailedLast(replies, k) ensures LastFailure(replies) == replies[k] {
      LastFailureIs(replies, k);
    }
  }

  /** Two failing rows, the second without a message: every row is sent, two fail, and the batch
      ends normally. */
  lemma FailureLost(message: string)
    requires message != ""
    ensures var replies := [Failure(message), Failure("")];
      && FailedLast(replies, 1) && LastFailure(replies) == Failure("")
      && !exists k: nat :: FailedLast(replies, k) && replies[k].message != ""
  {
    var replies := [Failure(message), Failure("")];
    LastFailureIs(replies, 1);
  }
}
