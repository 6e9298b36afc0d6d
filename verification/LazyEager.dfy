/** Pulling results one at a time against draining them first: when both show the application
    the same, expected answers (src/Results.cpp:286-306, 333-366 and 416-459). */
module LazyEager {
  import opened Strings
  import opened ResultStream
  import opened ResultRuns
  import opened WireSafety

  /** A run from `execute` on gives the answers the stream stands for. */
  ghost predicate GoesRight(stream: seq<Entry>, f: nat, binary: bool, script: seq<Op>)
    requires stream != [] && NoCallable(stream)
  {
    StartInv(stream, f, binary);
    Run(Start(stream, f, binary), script).1 == Answers(stream, 0, Asked(script))
  }

  ghost predicate NoBad(stream: seq<Entry>) {
    forall j: nat :: !Bad(stream, j)
  }

  ghost predicate NoStuck(stream: seq<Entry>, f: nat, binary: bool) {
    forall i :: 0 <= i < |stream| ==> !Stuck(stream[i], f, binary)
  }

  ghost predicate NoOpen(stream: seq<Entry>, f: nat) {
    forall i :: 0 <= i < |stream| ==> !Open(stream[i], f)
  }

  /** A run from `execute` on that never asks `getMoreResults` to close a result set that is still
      on the wire. */
  predicate GentleScript(stream: seq<Entry>, f: nat, binary: bool, script: seq<Op>)
    requires stream != [] && NoCallable(stream)
  {
    StartInv(stream, f, binary);
    Gentle(Start(stream, f, binary), script)
  }

  // ---------- one release for each result ----------

  /** No interior count truncates to -1; the last response is no result set with a full batch of
      rows; and no binary one that is read several rows at a time has a full batch. */
  ghost predicate Faithful(stream: seq<Entry>, f: nat, binary: bool) {
    NoBad(stream) && !StreamedTail(stream, f) && NoStuck(stream, f, binary)
  }

  /** What every step keeps on a faithful stream. */
  ghost predicate Right(s: State, stream: seq<Entry>, f: nat, released: bool, c: nat) {
    Safe(s, stream, f, released, c) && Complete(s)
  }

  lemma RightGetMore(s: State, close: bool, stream: seq<Entry>, f: nat, released: bool, c: nat)
    requires Right(s, stream, f, released, c) && Faithful(stream, f, s.binary) && !Blocks(s, close)
    ensures var (t, o) := GetMoreResults(s, close);
      Right(t, stream, f, false, c + 1) && o == Expected(stream, c + 1)
  {
    StepGetMore(s, close, stream, f, c);
    hide GetMoreResults, Tracks, FlagOk, Stuck, Bad, StreamedTail, Blocks;
    if s.haveResultInWire {
      SafeGetMore(s, close, stream, f, released, c);
    }
  }

  lemma RightLoadAll(s: State, stream: seq<Entry>, f: nat, released: bool, c: nat)
    requires Right(s, stream, f, released, c) && Faithful(stream, f, s.binary)
    ensures Right(LoadFully(s, false), stream, f, released, c)
  {
    SafeStepLoadAll(s, stream, f, released, c);
    if s.haveResultInWire {
      SafeLoadAll(s, stream, f, released, c);
    } else {
      LoadOffWire(s, stream, f, c);
    }
    hide LoadFully, Stuck, Safe;
  }

  lemma RightTurn(s: State, op: Op, stream: seq<Entry>, f: nat, released: bool, c: nat) returns (d: nat)
    requires Right(s, stream, f, released, c) && Faithful(stream, f, s.binary) && (op.Release? ==> !released)
    requires !BlocksOn(s, op)
    ensures s.cmdInformation.Some? && RightStep(s, op, stream, c, d)
    ensures Right(Apply(s, op).0, stream, f, NowReleased(op, released), d)
  {
    assert s.cmdInformation.Some?;
    hide Safe, Faithful, GetMoreResults, LoadFully, CloseRows, ReadThrough, ReleaseResultSet;
    d := c;
    if op.GetMore? {
      RightGetMore(s, op.close, stream, f, released, c);
      d := c + 1;
    } else if op.Release? {
      SafeRelease(s, stream, f, c);
    } else if op.LoadAll? {
      RightLoadAll(s, stream, f, released, c);
    } else {
      SafeTouch(s, op, stream, f, released, c);
    }
  }

  lemma {:induction false} RunFaithful(s: State, script: seq<Op>, stream: seq<Entry>, f: nat, released: bool, c: nat)
    requires Right(s, stream, f, released, c) && Faithful(stream, f, s.binary) && ReleasesOnce(script, released)
    requires s.cmdInformation.Some? && Gentle(s, script)
    ensures Run(s, script).1 == Answers(stream, c, Asked(script))
    decreases |script|
  {
    GentleCons(s, script);
    if script == [] {
      RunEmpty(s, stream, c);
    } else {
      var op := script[0];
      assert (op.Release? ==> !released) && ReleasesOnce(script[1..], NowReleased(op, released));
      assert Apply(s, op).0.binary == s.binary;
      hide *;
      var d := RightTurn(s, op, stream, f, released, c);
      RunFaithful(Apply(s, op).0, script[1..], stream, f, NowReleased(op, released), d);
      RunRightIff(s, script, stream, c, d);
    }
  }

  lemma FaithfulGoesRight(stream: seq<Entry>, f: nat, binary: bool, script: seq<Op>)
    requires stream != [] && NoCallable(stream) && Faithful(stream, f, binary)
    requires ReleasesOnce(script, false) && GentleScript(stream, f, binary, script)
    ensures GoesRight(stream, f, binary, script)
  {
    StartInv(stream, f, binary);
    StartAt(stream, f, binary);
    hide Start, Run, Inv, Tracks, FlagOk, Faithful, ReleasesOnce, Gentle;
    RunFaithful(Start(stream, f, binary), script, stream, f, false, 0);
  }

  // ---------- what goes wrong on the other streams ----------

  /** A wrong ending behind a walk makes a wrong run. */
  lemma WrongBehind(stream: seq<Entry>, f: nat, binary: bool, i: nat, last: seq<Op>, t: State)
    requires stream != [] && NoCallable(stream) && t.cmdInformation.Some?
    ensures Behind(stream, f, binary, i, last, t) && Run(t, last).1 != Answers(stream, i, Asked(last))
      ==> !GoesRight(stream, f, binary, Pulls(i) + last)
  {
    hide *;
    RightMeans(stream, f, binary, Pulls(i) + last);
    BehindMeans(stream, f, binary, i, last, t);
    AnswersAppend(stream, 0, i, Asked(last));
    SameBehind(Answers(stream, 0, i), Run(t, last).1, Answers(stream, i, Asked(last)));
  }

  lemma RightMeans(stream: seq<Entry>, f: nat, binary: bool, script: seq<Op>)
    requires stream != [] && NoCallable(stream)
    ensures Start(stream, f, binary).cmdInformation.Some?
    ensures GoesRight(stream, f, binary, script)
        <==> Run(Start(stream, f, binary), script).1 == Answers(stream, 0, Asked(script))
  {
    StartInv(stream, f, binary);
    hide Start, Run, Answers, Asked, Inv;
  }

  lemma BehindMeans(stream: seq<Entry>, f: nat, binary: bool, i: nat, last: seq<Op>, t: State)
    requires stream != [] && NoCallable(stream) && t.cmdInformation.Some?
    ensures Start(stream, f, binary).cmdInformation.Some?
    ensures Behind(stream, f, binary, i, last, t) ==>
      && Run(Start(stream, f, binary), Pulls(i) + last).1 == Answers(stream, 0, i) + Run(t, last).1
      && Asked(Pulls(i) + last) == i + Asked(last)
  {
    StartInv(stream, f, binary);
    hide Start, Run, Answers, Asked, Inv, Pulls;
  }

  lemma {:induction false} AnswersAppend(stream: seq<Entry>, c: nat, m: nat, n: nat)
    ensures Answers(stream, c, m + n) == Answers(stream, c, m) + Answers(stream, c + m, n)
    ensures |Answers(stream, c, m)| == m
    decreases m
  {
    hide Expected;
    var rest := Answers(stream, c + m, n);
    if m > 0 {
      AnswersAppend(stream, c + 1, m - 1, n);
      assert c + 1 + (m - 1) == c + m && m + n - 1 == (m - 1) + n;
      AnswersNext(stream, c, m);
      AnswersNext(stream, c, m + n);
      hide Answers;
      Regroup([Expected(stream, c + 1)], Answers(stream, c + 1, m - 1), rest);
    } else {
      Regroup(rest, [], []);
    }
  }

  lemma AnswersNext(stream: seq<Entry>, c: nat, n: nat)
    requires n > 0
    ensures Answers(stream, c, n) == [Expected(stream, c + 1)] + Answers(stream, c + 1, n - 1)
  {
  }

  /** The answer behind a mistaken count, or behind draining that stopped short. */
  lemma NothingMore(s: State, stream: seq<Entry>, f: nat, c: nat)
    requires Inv(s, stream, f, c) && !s.haveResultInWire && s.pending != [] && c + 1 >= s.taken && c + 1 < |stream|
    ensures GetMoreResults(s, false).1 != Expected(stream, c + 1)
  {
    StepGetMore(s, false, stream, f, c);
    hide GetMoreResults, Inv;
  }

  lemma OneWrong(s: State, close: bool, stream: seq<Entry>, c: nat)
    requires s.cmdInformation.Some? && GetMoreResults(s, close).1 != Expected(stream, c + 1)
    ensures Run(s, [GetMore(close)]).1 != Answers(stream, c, Asked([GetMore(close)]))
  {
    RunOne(s, GetMore(close));
    AskedOne(close);
    hide GetMoreResults, Run, Asked, Expected;
    assert Answers(stream, c, 1)[0] == Expected(stream, c + 1);
  }

  lemma AskedOne(close: bool)
    ensures Asked([GetMore(close)]) == 1
  {
    assert [GetMore(close)][1..] == [];
  }

  /** A right step in front of a wrong ending. */
  lemma WrongBehindStep(s: State, op: Op, last: seq<Op>, stream: seq<Entry>, c: nat, d: nat)
    requires s.cmdInformation.Some? && RightStep(s, op, stream, c, d)
    requires Run(Apply(s, op).0, last).1 != Answers(stream, d, Asked(last))
    ensures Run(s, [op] + last).1 != Answers(stream, c, Asked([op] + last))
  {
    var script := [op] + last;
    assert script[0] == op && script[1..] == last;
    hide *;
    RunRightIff(s, script, stream, c, d);
  }

  lemma {:induction false} FirstBad(stream: seq<Entry>, j: nat) returns (i: nat)
    requires Bad(stream, j)
    ensures Bad(stream, i) && i > 0 && NoBadUpTo(stream, i - 1)
    decreases j
  {
    if NoBadUpTo(stream, j - 1) {
      i := j;
    } else {
      var k: nat :| k <= j - 1 && Bad(stream, k);
      i := FirstBad(stream, k);
    }
  }

  /** Pulling up to a mistaken count and once more. */
  lemma BadGoesWrong(stream: seq<Entry>, f: nat, binary: bool, i: nat) returns (script: seq<Op>)
    requires stream != [] && NoCallable(stream) && Bad(stream, i) && i > 0
    requires NoBadUpTo(stream, i - 1) && NoStuckUpTo(stream, f, binary, i)
    ensures Modest(script) && !GoesRight(stream, f, binary, script)
  {
    var last := [GetMore(false)] + [GetMore(false)];
    ModestEndings();
    BeforeBad(stream, f, binary, i);
    hide *;
    var t := AfterWalk(stream, f, binary, i - 1, last);
    BadBehind(t, stream, f, i);
    WrongBehind(stream, f, binary, i - 1, last, t);
    script := Pulls(i - 1) + last;
    PullsModest(i - 1, last);
  }

  lemma BeforeBad(stream: seq<Entry>, f: nat, binary: bool, i: nat)
    requires i > 0 && Bad(stream, i) && NoStuckUpTo(stream, f, binary, i)
    ensures i < |stream| && NoStuckUpTo(stream, f, binary, i - 1) && !Stuck(stream[i - 1], f, binary)
  {
    hide Stuck;
  }

  lemma PullsModest(n: nat, script: seq<Op>)
    requires Modest(script)
    ensures Modest(Pulls(n) + script)
  {
    PullsOnce(n, script);
    hide ReleasesOnce, Keeps, Pulls;
  }

  /** Releases each result once at most, and closes none by `getMoreResults`. */
  predicate Modest(script: seq<Op>) {
    ReleasesOnce(script, false) && Keeps(script)
  }

  lemma ModestEndings()
    ensures Modest([GetMore(false)]) && Modest([GetMore(false)] + [GetMore(false)])
    ensures Modest([LoadAll] + [GetMore(false)])
  {
    var pull := [GetMore(false)];
    assert pull[1..] == [] && (pull + pull)[1..] == pull && ([LoadAll] + pull)[1..] == pull;
    assert ReleasesOnce(pull, false);
  }

  lemma BadBehind(t: State, stream: seq<Entry>, f: nat, i: nat)
    requires i > 0 && At(t, stream, f, i - 1) && Bad(stream, i) && t.haveResultInWire == Announced(stream, f, i - 1)
    requires !Stuck(stream[i - 1], f, t.binary)
    ensures t.cmdInformation.Some?
    ensures var last := [GetMore(false)] + [GetMore(false)];
            Run(t, last).1 != Answers(stream, i - 1, Asked(last))
  {
    hide *;
    BadHides(t, stream, f, i);
    var u := GetMoreResults(t, false).0;
    NothingMore(u, stream, f, i);
    OneWrong(u, false, stream, i);
    WrongBehindStep(t, GetMore(false), [GetMore(false)], stream, i - 1, i);
  }

  /** The pull that reaches the mistaken count forgets what is pending. */
  lemma BadHides(t: State, stream: seq<Entry>, f: nat, i: nat)
    requires i > 0 && At(t, stream, f, i - 1) && Bad(stream, i) && t.haveResultInWire == Announced(stream, f, i - 1)
    requires !Stuck(stream[i - 1], f, t.binary)
    ensures t.cmdInformation.Some? && RightStep(t, GetMore(false), stream, i - 1, i)
    ensures var u := GetMoreResults(t, false).0;
      && Inv(u, stream, f, i) && !u.haveResultInWire && u.pending != [] && u.taken == i + 1 && i + 1 < |stream|
      && Apply(t, GetMore(false)).0 == u
  {
    assert i + 1 < |stream| && Announced(stream, f, i - 1);
    hide GetMoreResults, Tracks, FlagOk, NewRows, Bad, Stuck;
    WalkOne(t, stream, f, i - 1);
  }

  /** Pulling to the end of a stream that ends in a full batch of rows, and once more. */
  lemma TailGoesWrong(stream: seq<Entry>, f: nat, binary: bool) returns (script: seq<Op>)
    requires stream != [] && NoCallable(stream) && StreamedTail(stream, f)
    requires NoBadUpTo(stream, |stream| - 1) && NoStuckUpTo(stream, f, binary, |stream| - 1)
    ensures Modest(script) && !GoesRight(stream, f, binary, script)
  {
    var i, last := |stream| - 1, [GetMore(false)];
    ModestEndings();
    assert Announced(stream, f, i);
    hide Start, Run, ReleasesOnce, Keeps, Pulls, Asked, Answers, GoesRight, At, Bad, NoBadUpTo, NoStuckUpTo, Behind;
    var t := AfterWalk(stream, f, binary, i, last);
    TailExhausts(t, stream, f, i);
    hide GetMoreResults, At;
    OneWrong(t, false, stream, i);
    WrongBehind(stream, f, binary, i, last, t);
    script := Pulls(i) + last;
  }

  lemma TailExhausts(t: State, stream: seq<Entry>, f: nat, i: nat)
    requires At(t, stream, f, i) && t.haveResultInWire && i == |stream| - 1
    ensures t.cmdInformation.Some? && GetMoreResults(t, false).1 == Exhausted
  {
    StepGetMore(t, false, stream, f, i);
    hide GetMoreResults, Tracks, FlagOk, NewRows;
  }

  /** Draining that cannot start: the driver's bit is clear, and settling does not help. */
  lemma LostByDraining(t: State, stream: seq<Entry>, f: nat, i: nat)
    requires Inv(t, stream, f, i) && t.haveResultInWire && i + 1 < |stream|
    requires !Settle(t, Last(t), false).more
    ensures t.cmdInformation.Some?
    ensures var last := [LoadAll] + [GetMore(false)];
            Run(t, last).1 != Answers(stream, i, Asked(last))
  {
    var s1 := Settle(t, Last(t), false);
    var u := LoadFully(t, false);
    assert u == s1.(haveResultInWire := false) by { hide Settle, Inv; }
    StepLoadAll(t, stream, f, i);
    assert u.pending == t.pending == stream[i + 1..] != [] && u.taken == t.taken == i + 1 by { hide Settle, LoadFully; }
    assert !u.haveResultInWire && RightStep(t, LoadAll, stream, i, i) && Apply(t, LoadAll).0 == u;
    hide Settle, LoadFully, Inv, Run, Asked, Apply, RightStep;
    NothingMore(u, stream, f, i);
    OneWrong(u, false, stream, i);
    WrongBehindStep(t, LoadAll, [GetMore(false)], stream, i, i);
  }

  /** Pulling up to a stuck result set and draining from there. */
  lemma StuckGoesWrong(stream: seq<Entry>, f: nat, binary: bool, i: nat) returns (script: seq<Op>)
    requires stream != [] && NoCallable(stream) && NoBadUpTo(stream, i) && NoStuckUpTo(stream, f, binary, i)
    requires i < |stream| - 1 && Stuck(stream[i], f, binary)
    ensures Modest(script) && !GoesRight(stream, f, binary, script)
  {
    var last := [LoadAll] + [GetMore(false)];
    ModestEndings();
    assert Announced(stream, f, i);
    hide Start, Run, ReleasesOnce, Keeps, Pulls, Asked, Answers, GoesRight, At, Bad, NoBadUpTo, NoStuckUpTo, Behind;
    var t := AfterWalk(stream, f, binary, i, last);
    StuckStops(t, stream, f, i);
    hide Settle, At, Last;
    LostByDraining(t, stream, f, i);
    WrongBehind(stream, f, binary, i, last, t);
    script := Pulls(i) + last;
  }

  lemma StuckStops(t: State, stream: seq<Entry>, f: nat, i: nat)
    requires At(t, stream, f, i) && t.haveResultInWire && Stuck(stream[i], f, t.binary)
    ensures Inv(t, stream, f, i) && !Settle(t, Last(t), false).more
  {
    assert Last(t) == Some(i) && Sticks(t, i) && !t.more;
    hide Settle;
  }

  /** Every stream that is not faithful has such a run: the first stuck result set, the first
      mistaken count before it, or the end makes it. */
  lemma UnfaithfulGoesWrong(stream: seq<Entry>, f: nat, binary: bool) returns (script: seq<Op>)
    requires stream != [] && NoCallable(stream) && !Faithful(stream, f, binary)
    ensures Modest(script) && !GoesRight(stream, f, binary, script)
  {
    hide GoesRight, ReleasesOnce, Keeps, Bad, Stuck, StreamedTail, Modest;
    var k := |stream| - 1;
    if i :| 0 <= i < |stream| && Stuck(stream[i], f, binary) { k := FirstStuck(stream, f, binary, i); }
    assert NoStuckUpTo(stream, f, binary, k);
    if NoBadUpTo(stream, k) {
      if k < |stream| - 1 {
        script := StuckGoesWrong(stream, f, binary, k);
      } else {
        LastIsTail(stream, f, binary);
        script := TailGoesWrong(stream, f, binary);
      }
    } else {
      var j: nat :| j <= k && Bad(stream, j);
      var i := FirstBad(stream, j);
      assert NoStuckUpTo(stream, f, binary, i);
      script := BadGoesWrong(stream, f, binary, i);
    }
  }

  /** Without a mistaken count, and with nothing stuck but the last, only the end can be wrong. */
  lemma LastIsTail(stream: seq<Entry>, f: nat, binary: bool)
    requires stream != [] && !Faithful(stream, f, binary)
    requires NoBadUpTo(stream, |stream| - 1) && NoStuckUpTo(stream, f, binary, |stream| - 1)
    ensures StreamedTail(stream, f)
  {
    assert NoBad(stream);
    if !NoStuck(stream, f, binary) {
      var i :| 0 <= i < |stream| && Stuck(stream[i], f, binary);
      assert i == |stream| - 1;
    }
  }

  lemma ModestIsGentle(stream: seq<Entry>, f: nat, binary: bool, script: seq<Op>)
    requires stream != [] && NoCallable(stream) && Modest(script)
    ensures ReleasesOnce(script, false) && GentleScript(stream, f, binary, script)
  {
    hide GentleScript, Keeps, ReleasesOnce;
    KeepsIsGentleScript(stream, f, binary, script);
  }

  /** Pulling lazily, draining eagerly, closing and reading, at any points, with each result
      released at most once and nothing closed by `getMoreResults` while it is on the wire, always
      give the expected answers exactly on faithful streams. */
  lemma GentleAnswersIff(stream: seq<Entry>, f: nat, binary: bool)
    requires stream != [] && NoCallable(stream)
    ensures (forall script | ReleasesOnce(script, false) && GentleScript(stream, f, binary, script) ::
              GoesRight(stream, f, binary, script))
        <==> Faithful(stream, f, binary)
  {
    hide GoesRight, ReleasesOnce, Faithful, GentleScript, Modest;
    if Faithful(stream, f, binary) {
      forall script | ReleasesOnce(script, false) && GentleScript(stream, f, binary, script)
        ensures GoesRight(stream, f, binary, script)
      {
        FaithfulGoesRight(stream, f, binary, script);
      }
    } else {
      var script := UnfaithfulGoesWrong(stream, f, binary);
      ModestIsGentle(stream, f, binary, script);
    }
  }

  // ---------- any closing, any number of releases ----------

  /** Nothing is ever left on the wire. */
  ghost predicate Plain(stream: seq<Entry>, f: nat) {
    NoBad(stream) && NoOpen(stream, f)
  }

  /** No result set is on the wire. */
  ghost predicate Grounded(s: State) {
    forall id :: id in s.rows ==> !s.rows[id].Streaming?
  }

  /** What every step keeps on a plain stream. */
  ghost predicate PlainState(s: State, stream: seq<Entry>, f: nat, c: nat) {
    Inv(s, stream, f, c) && Calm(s, true) && Complete(s) && Grounded(s)
  }

  lemma PlainTurn(s: State, op: Op, stream: seq<Entry>, f: nat, c: nat) returns (d: nat)
    requires PlainState(s, stream, f, c) && Plain(stream, f)
    ensures s.cmdInformation.Some? && RightStep(s, op, stream, c, d) && PlainState(Apply(s, op).0, stream, f, d)
  {
    PlainRows(stream, f, c + 1, s.binary);
    d := if op.GetMore? then c + 1 else c;
    assert s.cmdInformation.Some?;
    var e := CalmStep(s, op, stream, f, true, c);
    GroundedStep(s, op, stream, f, c);
    if op.GetMore? {
      PlainGetMore(s, op.close, stream, f, c);
      hide GetMoreResults, Calm, Plain, Grounded, Inv, Complete;
    } else {
      StepOther(s, op, stream, f, c);
      PlainOther(s, op, stream, f, c);
      hide Inv, Calm, Apply, Grounded, Complete;
    }
  }

  lemma PlainGetMore(s: State, close: bool, stream: seq<Entry>, f: nat, c: nat)
    requires PlainState(s, stream, f, c) && Plain(stream, f)
    ensures s.cmdInformation.Some?
    ensures var (t, o) := GetMoreResults(s, close);
      Inv(t, stream, f, c + 1) && Complete(t) && o == Expected(stream, c + 1)
  {
    assert !Blocks(s, close);
    StepGetMore(s, close, stream, f, c);
    PlainTail(stream, f);
    hide GetMoreResults, Calm, Bad, StreamedTail, Plain, Blocks, Grounded;
  }

  lemma GroundedStep(s: State, op: Op, stream: seq<Entry>, f: nat, c: nat)
    requires PlainState(s, stream, f, c) && Plain(stream, f)
    ensures s.cmdInformation.Some? && Grounded(Apply(s, op).0)
  {
    PlainPending(s, stream, f, c);
    assert s.cmdInformation.Some?;
    hide Inv, Calm, Complete, Plain;
    match op
    case GetMore(close) => GroundedPull(s, close);
    case Release =>
    case LoadAll => GroundedLoad(s); hide LoadFully;
    case AppClose(id) => hide CloseRows;
    case AppRead(id) => hide ReadThrough;
  }

  /** Nothing pending will stay on the wire, whatever the fetch size is by then. */
  ghost predicate PendingPlain(s: State) {
    s.pending == [] || s.fetchSize == 0 || NoOpen(s.pending, s.fetchSize)
  }

  lemma PlainPending(s: State, stream: seq<Entry>, f: nat, c: nat)
    requires PlainState(s, stream, f, c) && Plain(stream, f)
    ensures PendingPlain(s) && NoCallable(s.pending)
  {
    assert s.pending == stream[s.taken..];
    assert forall i :: 0 <= i < |s.pending| ==> s.pending[i] == stream[s.taken + i];
    hide Open, Calm, Grounded, Bad;
  }

  lemma GroundedGet(s: State)
    requires Grounded(s) && PendingPlain(s) && NoCallable(s.pending) && s.pending != []
    ensures var t := GetResult(s); Grounded(t) && PendingPlain(t) && NoCallable(t.pending)
  {
    var t := GetResult(s);
    assert forall i :: 0 <= i < |t.pending| ==> t.pending[i] == s.pending[i + 1];
    assert s.pending[0].Select? ==> !Open(s.pending[0], s.fetchSize) && !s.pending[0].callable;
    hide GetResult, Recorded;
    if s.pending[0].Update? { GetUpdate(s); } else { GetSelect(s); GetSelectRows(s); }
  }

  lemma GroundedPull(s: State, close: bool)
    requires Grounded(s) && PendingPlain(s) && NoCallable(s.pending) && s.cmdInformation.Some?
    ensures Grounded(GetMoreResults(s, close).0)
  {
    var s1 := Settle(s, Present(s), close);
    var t := MoveOn(s, close).0;
    GroundedSettle(s, Present(s), close);
    MoveOnRows(s, close);
    hide MoveOn, Settle, GetResult, Blocks, PendingPlain, AllRead, NoCallable, Grounded, Move;
    if s1.haveResultInWire && s1.pending != [] {
      GroundedMove(s1);
      assert Move(s1).pending == s1.pending by { MovePending(s1); }
      GroundedGet(Move(s1));
      GroundedRows(GetResult(Move(s1)), t);
    } else {
      GroundedRows(s1, t);
    }
  }

  lemma MovePending(s: State)
    ensures Move(s).pending == s.pending
  {
    hide AllRead;
  }

  lemma GroundedRows(s: State, t: State)
    requires Grounded(s) && t.rows == s.rows
    ensures Grounded(t)
  {
  }

  lemma GroundedSettle(s: State, id: Option<nat>, close: bool)
    requires Grounded(s) && PendingPlain(s) && NoCallable(s.pending)
    ensures var t := Settle(s, id, close); Grounded(t) && PendingPlain(t) && NoCallable(t.pending)
  {
    hide Settle, Open;
  }

  lemma GroundedMove(s: State)
    requires Grounded(s) && PendingPlain(s) && NoCallable(s.pending)
    ensures var t := Move(s); Grounded(t) && PendingPlain(t) && NoCallable(t.pending)
  {
    hide AllRead, Open;
  }

  lemma {:induction false} GroundedDrain(s: State)
    requires Grounded(s) && PendingPlain(s) && NoCallable(s.pending)
    ensures Grounded(Drain(s))
    decreases |s.pending|
  {
    if s.more && s.pending != [] {
      GroundedMove(s);
      GroundedGet(Move(s));
      hide GetResult;
      GroundedDrain(GetResult(Move(s)));
    }
  }

  lemma GroundedLoad(s: State)
    requires Grounded(s) && PendingPlain(s) && NoCallable(s.pending)
    ensures Grounded(LoadFully(s, false))
  {
    var s1 := Settle(s, Last(s), false);
    GroundedSettle(s, Last(s), false);
    hide Settle;
    if s1.haveResultInWire { GroundedDrain(s1.(cachingLocally := true)); }
  }

  lemma PlainTail(stream: seq<Entry>, f: nat)
    requires Plain(stream, f)
    ensures !StreamedTail(stream, f) && forall j: nat :: !Bad(stream, j)
  {
  }

  lemma PlainRows(stream: seq<Entry>, f: nat, i: nat, binary: bool)
    requires Plain(stream, f) && NoCallable(stream)
    ensures i < |stream| && stream[i].Select? ==>
      var r := NewRows(stream[i], f, binary); Unread(r) ==> r.Buffered?
  {
    if i < |stream| { assert !Open(stream[i], f); }
  }

  lemma PlainOther(s: State, op: Op, stream: seq<Entry>, f: nat, c: nat)
    requires Inv(s, stream, f, c) && Calm(s, true) && Complete(s) && Plain(stream, f) && !op.GetMore?
    ensures Complete(Apply(s, op).0)
  {
    if op.LoadAll? {
      PlainDrains(s, stream, f, c);
      hide LoadFully;
    } else {
      hide CloseRows, ReadThrough;
    }
  }

  lemma PlainDrains(s: State, stream: seq<Entry>, f: nat, c: nat)
    requires Inv(s, stream, f, c) && Calm(s, true) && Complete(s) && Plain(stream, f)
    ensures LoadFully(s, false).pending == []
  {
    LoadFullyDrainsIff(s);
    var s1 := Settle(s, Last(s), false);
    CalmSettled(s, Last(s), false, true);
    assert s1.pending == s.pending == stream[s.taken..] && s1.haveResultInWire == s.haveResultInWire by { hide Settle; }
    assert forall i :: 0 <= i < |s.pending| ==> !Stuck(s.pending[i], s1.fetchSize, s1.binary) by {
      assert s.haveResultInWire && s.pending != [] ==> s1.fetchSize == f by { hide Settle; }
      forall i | 0 <= i < |s.pending| ensures s.pending[i] == stream[s.taken + i] {
      }
    }
    hide Settle, LoadFully, Inv, Stuck;
  }

  lemma {:induction false} RunPlain(s: State, script: seq<Op>, stream: seq<Entry>, f: nat, c: nat)
    requires PlainState(s, stream, f, c) && Plain(stream, f) && s.cmdInformation.Some?
    ensures Run(s, script).1 == Answers(stream, c, Asked(script))
    decreases |script|
  {
    if script == [] {
      RunEmpty(s, stream, c);
    } else {
      hide *;
      var d := PlainTurn(s, script[0], stream, f, c);
      RunPlain(Apply(s, script[0]).0, script[1..], stream, f, d);
      RunRightIff(s, script, stream, c, d);
    }
  }

  lemma PlainGoesRight(stream: seq<Entry>, f: nat, binary: bool, script: seq<Op>)
    requires stream != [] && NoCallable(stream) && Plain(stream, f)
    ensures GoesRight(stream, f, binary, script)
  {
    StartInv(stream, f, binary);
    PlainStart(stream, f, binary);
    hide Start, Run, Inv, PlainState, Plain;
    RunPlain(Start(stream, f, binary), script, stream, f, 0);
  }

  lemma PlainStart(stream: seq<Entry>, f: nat, binary: bool)
    requires stream != [] && NoCallable(stream) && Plain(stream, f)
    ensures PlainState(Start(stream, f, binary), stream, f, 0)
  {
    StartInv(stream, f, binary);
    PlainRows(stream, f, 0, binary);
    assert !Open(stream[0], f);
    hide Start, Inv, NewRows, Open, Plain;
  }

  /** Pulling up to a result set that stays on the wire, and then as `getMoreResults()` does by
      default: the call never returns. */
  lemma OpenBlocks(stream: seq<Entry>, f: nat, binary: bool, i: nat) returns (script: seq<Op>)
    requires stream != [] && NoCallable(stream) && NoBadUpTo(stream, i) && NoStuckUpTo(stream, f, binary, i)
    requires i < |stream| && Open(stream[i], f)
    ensures ReleasesOnce(script, false) && !GoesRight(stream, f, binary, script)
  {
    var last := [GetMore(true)];
    assert ReleasesOnce(last, false) by { assert last[1..] == []; }
    hide Start, Run, ReleasesOnce, Pulls, Asked, Answers, GoesRight, At, Bad, NoBadUpTo, NoStuckUpTo, Behind;
    var t := AfterWalk(stream, f, binary, i, last);
    OpenBlocked(t, stream, f, i);
    hide GetMoreResults, At, Open;
    OneWrong(t, true, stream, i);
    WrongBehind(stream, f, binary, i, last, t);
    script := Pulls(i) + last;
  }

  lemma OpenBlocked(t: State, stream: seq<Entry>, f: nat, i: nat)
    requires At(t, stream, f, i) && Open(stream[i], f)
    ensures t.cmdInformation.Some? && GetMoreResults(t, true).1 == Blocked
  {
    assert Present(t) == Some(i) && Blocks(t, true);
    hide MoveOn;
  }

  /** Pulling up to such a result set, releasing it twice, and draining. */
  lemma OpenGoesWrong(stream: seq<Entry>, f: nat, binary: bool, i: nat) returns (script: seq<Op>)
    requires stream != [] && NoCallable(stream) && NoBadUpTo(stream, i) && NoStuckUpTo(stream, f, binary, i)
    requires i < |stream| - 1 && Open(stream[i], f)
    ensures Keeps(script) && !GoesRight(stream, f, binary, script)
  {
    var last := [Release] + ([Release] + ([LoadAll] + [GetMore(false)]));
    assert Keeps(last) && Announced(stream, f, i);
    hide Start, Run, ReleasesOnce, Keeps, Pulls, Asked, Answers, GoesRight, At, Bad, NoBadUpTo, NoStuckUpTo, Behind;
    var t := AfterWalk(stream, f, binary, i, last);
    LostByReleasing(t, stream, f, i);
    WrongBehind(stream, f, binary, i, last, t);
    script := Pulls(i) + last;
  }

  lemma LostByReleasing(t: State, stream: seq<Entry>, f: nat, i: nat)
    requires At(t, stream, f, i) && t.haveResultInWire && i + 1 < |stream| && Open(stream[i], f)
    ensures t.cmdInformation.Some?
    ensures var last := [Release] + ([Release] + ([LoadAll] + [GetMore(false)]));
            Run(t, last).1 != Answers(stream, i, Asked(last))
  {
    var t1 := ReleaseResultSet(t).0;
    var t2 := ReleaseResultSet(t1).0;
    assert Inv(t2, stream, f, i) && t2.haveResultInWire && Last(t2) == None && !t2.more;
    assert t.cmdInformation.Some? && t1.cmdInformation.Some?;
    assert RightStep(t, Release, stream, i, i) && RightStep(t1, Release, stream, i, i);
    assert Apply(t, Release).0 == t1 && Apply(t1, Release).0 == t2;
    hide At, Inv, Run, Asked, Apply, RightStep;
    LostByDraining(t2, stream, f, i);
    WrongBehindStep(t1, Release, [LoadAll] + [GetMore(false)], stream, i, i);
    WrongBehindStep(t, Release, [Release] + ([LoadAll] + [GetMore(false)]), stream, i, i);
  }

  /** On a faithful stream that is not plain an interior result set stays on the wire. */
  lemma FaithfulOpen(stream: seq<Entry>, f: nat, binary: bool) returns (i: nat)
    requires Faithful(stream, f, binary) && !Plain(stream, f)
    ensures i < |stream| - 1 && Open(stream[i], f) && NoBadUpTo(stream, i) && NoStuckUpTo(stream, f, binary, i)
  {
    i :| 0 <= i < |stream| && Open(stream[i], f);
  }

  /** Every stream that is not plain goes wrong with one release for each result, and also with
      nothing closed by `getMoreResults`. */
  lemma NotPlainGoesWrong(stream: seq<Entry>, f: nat, binary: bool) returns (once: seq<Op>, keeping: seq<Op>)
    requires stream != [] && NoCallable(stream) && !Plain(stream, f)
    ensures ReleasesOnce(once, false) && !GoesRight(stream, f, binary, once)
    ensures Keeps(keeping) && !GoesRight(stream, f, binary, keeping)
  {
    hide GoesRight, ReleasesOnce, Keeps, NoBadUpTo, NoStuckUpTo, Plain, Faithful, Open;
    if Faithful(stream, f, binary) {
      var i := FaithfulOpen(stream, f, binary);
      once := OpenBlocks(stream, f, binary, i);
      keeping := OpenGoesWrong(stream, f, binary, i);
    } else {
      once := UnfaithfulGoesWrong(stream, f, binary);
      keeping := once;
    }
  }

  /** Without any limit, every run gives the expected answers exactly when no interior count
      truncates to -1 and no result set has a full batch of rows to leave on the wire. Neither
      releasing each result once, nor closing nothing that is on the wire, changes this by itself:
      only both together do (`GentleAnswersIff`). */
  lemma AnswersIff(stream: seq<Entry>, f: nat, binary: bool)
    requires stream != [] && NoCallable(stream)
    ensures (forall script :: GoesRight(stream, f, binary, script)) <==> Plain(stream, f)
    ensures (forall script :: ReleasesOnce(script, false) ==> GoesRight(stream, f, binary, script)) <==> Plain(stream, f)
    ensures (forall script :: GentleScript(stream, f, binary, script) ==> GoesRight(stream, f, binary, script))
        <==> Plain(stream, f)
  {
    hide GoesRight, Plain, ReleasesOnce, GentleScript, Keeps;
    if Plain(stream, f) {
      forall script ensures GoesRight(stream, f, binary, script) {
        PlainGoesRight(stream, f, binary, script);
      }
    } else {
      var once, keeping := NotPlainGoesWrong(stream, f, binary);
      KeepsIsGentleScript(stream, f, binary, keeping);
    }
  }

  lemma KeepsIsGentleScript(stream: seq<Entry>, f: nat, binary: bool, script: seq<Op>)
    requires stream != [] && NoCallable(stream) && Keeps(script)
    ensures GentleScript(stream, f, binary, script)
  {
    StartInv(stream, f, binary);
    hide Start, Keeps;
    KeepsIsGentle(Start(stream, f, binary), script);
  }

  /** A text result set of five rows, fetched two at a time, and an update count: the stream is
      faithful, and the first `getMoreResults()` never returns. */
  lemma DefaultCallBlocks()
    ensures var stream := [Select(false, 5), Update(1)];
      && NoCallable(stream) && Faithful(stream, 2, false)
      && Start(stream, 2, false).cmdInformation.Some?
      && Run(Start(stream, 2, false), [GetMore(true)]).1 == [Blocked]
  {
    var stream := [Select(false, 5), Update(1)];
    StartInv(stream, 2, false);
    StartAt(stream, 2, false);
    var s := Start(stream, 2, false);
    assert BlocksOn(s, GetMore(true)) by { hide Start; }
    hide Start, BlocksOn;
    BlockedGoesWrong(s, [GetMore(true)], stream, 0);
  }
}
