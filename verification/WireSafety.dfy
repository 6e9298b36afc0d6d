/** Safety of the wire: no move to the next result while rows of an earlier one have neither been
    read nor discarded. `getResultSet` is documented to be called once per result
    (src/MariaDbStatement.cpp:1067); this module says exactly what that is good for. */
module WireSafety {
  import opened Strings
  import opened ResultStream
  import opened ResultRuns

  // ---------- what the driver keeps track of ----------

  /** Only the result set under the cursor may have unread rows, and the driver still knows it:
      as its own, or by the pointer it kept when it was released. */
  ghost predicate Tracks(s: State, released: bool, c: nat) {
    && (released ==> s.currentRs == None)
    && forall id :: id in s.rows && Unread(s.rows[id]) ==>
         id == c && (if released then s.resultSet == Some(c) else s.currentRs == Some(c))
  }

  predicate OnWire(s: State, c: nat) {
    c in s.rows && s.rows[c].Streaming?
  }

  /** The driver's bit tells what is pending, unless the result set under the cursor is still on
      the wire; then the bit is clear. */
  ghost predicate FlagOk(s: State, stream: seq<Entry>, f: nat, c: nat) {
    if OnWire(s, c)
    then !s.more && c < |stream| && Open(stream[c], f) && s.rows[c].ahead == (f > 1)
    else s.more == (s.pending != [])
  }

  ghost predicate Safe(s: State, stream: seq<Entry>, f: nat, released: bool, c: nat) {
    && Inv(s, stream, f, c)
    && (s.haveResultInWire ==> Tracks(s, released, c) && FlagOk(s, stream, f, c))
  }

  /** The response under the cursor has just been reached. */
  ghost predicate At(s: State, stream: seq<Entry>, f: nat, c: nat) {
    && Safe(s, stream, f, false, c) && c < |stream|
    && (stream[c].Select? ==>
          c in s.rows && s.rows[c] == NewRows(stream[c], f, s.binary) && s.currentRs == Some(c))
  }

  /** At most one release between one answer and the next. */
  predicate ReleasesOnce(script: seq<Op>, released: bool) {
    script == [] ||
    ((script[0].Release? ==> !released) && ReleasesOnce(script[1..], NowReleased(script[0], released)))
  }

  function NowReleased(op: Op, released: bool): bool {
    match op
    case GetMore(_) => false
    case Release => true
    case LoadAll => released
    case AppClose(_) => released
    case AppRead(_) => released
  }

  // ---------- one operation ----------

  lemma StartAt(stream: seq<Entry>, f: nat, binary: bool)
    requires stream != [] && NoCallable(stream)
    ensures At(Start(stream, f, binary), stream, f, 0)
  {
    StartInv(stream, f, binary);
    hide Start;
  }

  /** Settling the present result set leaves nothing unread, unless it is stuck and kept. */
  lemma SettledSafe(s: State, close: bool, stream: seq<Entry>, f: nat, released: bool, c: nat)
    requires Safe(s, stream, f, released, c) && s.haveResultInWire
    ensures c < |stream|
    ensures var s1 := Settle(s, Present(s), close);
      && Inv(s1, stream, f, c)
      && (close || !Stuck(stream[c], f, s.binary) ==> AllRead(s1) && s1.more == (s1.pending != []))
      && s1.pending == s.pending && s1.haveResultInWire && s1.unsafeMoves == s.unsafeMoves && s1.binary == s.binary
  {
    SettledInv(s, Present(s), close, stream, f, c);
    hide Settle;
  }

  /** Reading the next response and moving the cursor to it. */
  lemma SafePull(s: State, stream: seq<Entry>, f: nat, c: nat)
    requires Inv(s, stream, f, c) && AllRead(s) && s.haveResultInWire && s.pending != []
    ensures At(Advance(GetResult(s)).0, stream, f, c + 1)
    ensures Advance(GetResult(s)).0.unsafeMoves == s.unsafeMoves
  {
    PullRows(s, stream, f, c);
    PullEntry(s, stream, f, c);
    hide GetResult, Advance, Inv;
    Arrived(s.rows, Advance(GetResult(s)).0, stream, f, c + 1);
  }

  lemma Arrived(rows: map<nat, RowState>, t: State, stream: seq<Entry>, f: nat, c: nat)
    requires c < |stream| && Inv(t, stream, f, c) && forall id :: id in rows ==> !Unread(rows[id])
    requires t.rows == (if stream[c].Update? then rows else rows[c := NewRows(stream[c], f, t.binary)])
    requires t.more == (t.pending != [] && !Open(stream[c], f))
    requires stream[c].Select? ==> t.currentRs == Some(c) && !stream[c].callable
    ensures At(t, stream, f, c)
  {
    hide Inv;
  }

  lemma SafeGetMore(s: State, close: bool, stream: seq<Entry>, f: nat, released: bool, c: nat)
    requires Safe(s, stream, f, released, c) && s.haveResultInWire
    requires c < |stream| && (close || !Stuck(stream[c], f, s.binary))
    ensures var (t, o) := GetMoreResults(s, close);
      && t.unsafeMoves == s.unsafeMoves
      && (o == Blocked <==> Blocks(s, close)) && (o == Exhausted <==> o != Blocked && s.pending == [])
      && (!Final(o) ==> At(t, stream, f, c + 1))
  {
    if !Blocks(s, close) { SafeMoveOn(s, close, stream, f, released, c); }
    hide MoveOn, Safe, At, Stuck;
  }

  lemma SafeMoveOn(s: State, close: bool, stream: seq<Entry>, f: nat, released: bool, c: nat)
    requires Safe(s, stream, f, released, c) && s.haveResultInWire
    requires c < |stream| && (close || !Stuck(stream[c], f, s.binary))
    ensures var (t, o) := MoveOn(s, close);
      && t.unsafeMoves == s.unsafeMoves && (o == Exhausted <==> s.pending == [])
      && (s.pending != [] ==> At(t, stream, f, c + 1))
  {
    var s1 := Settle(s, Present(s), close);
    SettledSafe(s, close, stream, f, released, c);
    hide Settle, Inv;
    assert Move(s1) == s1;
    if s1.pending != [] {
      SafePull(s1, stream, f, c);
      hide Advance, GetResult, Move;
    }
  }

  /** Draining never moves past unread rows: a stuck result set stops it. */
  lemma {:induction false} SafeDrain(s: State)
    requires NoCallable(s.pending) && s.cachingLocally && (s.more ==> AllRead(s))
    ensures Drain(s).unsafeMoves == s.unsafeMoves
    decreases |s.pending|
  {
    if s.more && s.pending != [] {
      assert Move(s) == s;
      if s.pending[0].Update? { GetUpdate(s); } else { GetSelectRows(s); }
      var t := GetResult(s);
      hide GetResult;
      assert forall i :: 0 <= i < |t.pending| ==> t.pending[i] == s.pending[i + 1];
      SafeDrain(t);
    }
  }

  lemma SafeLoadAll(s: State, stream: seq<Entry>, f: nat, released: bool, c: nat)
    requires Safe(s, stream, f, released, c) && s.haveResultInWire
    ensures var t := LoadFully(s, false);
      && Inv(t, stream, f, c) && !t.haveResultInWire && t.unsafeMoves == s.unsafeMoves
      && ((forall i :: c <= i < |stream| ==> !Stuck(stream[i], f, s.binary)) ==> t.pending == [])
  {
    LastIsPresent(s, stream, f, c);
    StepLoadAll(s, stream, f, c);
    LoadFullyDrainsIff(s);
    SettledSafe(s, false, stream, f, released, c);
    var s1 := Settle(s, Present(s), false);
    assert s.pending != [] ==> s1.fetchSize == s.fetchSize;
    assert s.pending != [] ==> s.fetchSize == f;
    StopsOrRead(s, stream, f, released, c);
    hide Settle, Inv, Safe, Drain, Stuck;
    SafeDrain(s1.(cachingLocally := true));
  }

  lemma LastIsPresent(s: State, stream: seq<Entry>, f: nat, c: nat)
    requires Inv(s, stream, f, c) && s.haveResultInWire
    ensures Last(s) == Present(s) && !s.cachingLocally && NoCallable(s.pending)
    ensures s.pending == stream[c + 1..] && forall i :: 0 <= i < |s.pending| ==> s.pending[i] == stream[c + 1 + i]
  {
  }

  /** A kept result set that is stuck leaves the driver's bit clear. */
  lemma StopsOrRead(s: State, stream: seq<Entry>, f: nat, released: bool, c: nat)
    requires Safe(s, stream, f, released, c) && s.haveResultInWire
    ensures var s1 := Settle(s, Present(s), false); s1.more ==> AllRead(s1)
  {
    hide Settle, Inv;
  }

  lemma SafeTouch(s: State, op: Op, stream: seq<Entry>, f: nat, released: bool, c: nat)
    requires Safe(s, stream, f, released, c) && (op.AppClose? || op.AppRead?)
    ensures var t := Apply(s, op).0;
      && Safe(t, stream, f, released, c) && t.unsafeMoves == s.unsafeMoves
      && t.pending == s.pending && t.haveResultInWire == s.haveResultInWire
  {
    StepOther(s, op, stream, f, c);
    hide CloseRows, ReadThrough, Inv;
  }

  lemma SafeRelease(s: State, stream: seq<Entry>, f: nat, c: nat)
    requires Safe(s, stream, f, false, c)
    ensures var t := ReleaseResultSet(s).0;
      && Safe(t, stream, f, true, c) && t.unsafeMoves == s.unsafeMoves
      && t.pending == s.pending && t.haveResultInWire == s.haveResultInWire
  {
  }

  // ---------- runs that release once ----------

  /** No result set that would get stuck can be reached by pulling. */
  ghost predicate NoStuckInReach(stream: seq<Entry>, f: nat, binary: bool) {
    forall i: nat :: i < |stream| && NoBadUpTo(stream, i) ==> !Stuck(stream[i], f, binary)
  }

  lemma SafeStep(s: State, op: Op, stream: seq<Entry>, f: nat, released: bool, c: nat) returns (d: nat)
    requires Safe(s, stream, f, released, c) && (op.Release? ==> !released)
    requires op.GetMore? && s.haveResultInWire && c < |stream| ==> op.close || !Stuck(stream[c], f, s.binary)
    ensures s.cmdInformation.Some? && Apply(s, op).0.unsafeMoves == s.unsafeMoves
    ensures Stops(Apply(s, op).1) || Safe(Apply(s, op).0, stream, f, NowReleased(op, released), d)
  {
    assert s.cmdInformation.Some? && (s.haveResultInWire ==> c < |stream|);
    hide Safe, GetMoreResults, LoadFully, CloseRows, ReadThrough, ReleaseResultSet, Stuck;
    d := c;
    if op.GetMore? {
      d := SafeStepGetMore(s, op.close, stream, f, released, c);
    } else if op.Release? {
      SafeRelease(s, stream, f, c);
    } else if op.LoadAll? {
      SafeStepLoadAll(s, stream, f, released, c);
    } else {
      SafeTouch(s, op, stream, f, released, c);
    }
  }

  lemma SafeStepGetMore(s: State, close: bool, stream: seq<Entry>, f: nat, released: bool, c: nat) returns (d: nat)
    requires Safe(s, stream, f, released, c)
    requires s.haveResultInWire && c < |stream| ==> close || !Stuck(stream[c], f, s.binary)
    ensures s.cmdInformation.Some? && GetMoreResults(s, close).0.unsafeMoves == s.unsafeMoves
    ensures Final(GetMoreResults(s, close).1) || Safe(GetMoreResults(s, close).0, stream, f, false, d)
  {
    d := c + 1;
    assert s.haveResultInWire ==> c < |stream|;
    hide GetMoreResults, Inv, Tracks, FlagOk, Stuck;
    if s.haveResultInWire {
      SafeGetMore(s, close, stream, f, released, c);
    } else {
      PullOffWire(s, close, stream, f, c);
    }
  }

  lemma PullOffWire(s: State, close: bool, stream: seq<Entry>, f: nat, c: nat)
    requires Inv(s, stream, f, c) && !s.haveResultInWire
    ensures s.cmdInformation.Some?
    ensures var (t, o) := GetMoreResults(s, close);
      && t.unsafeMoves == s.unsafeMoves && !t.haveResultInWire && t.pending == s.pending
      && (Final(o) || Inv(t, stream, f, c + 1))
  {
    StepGetMore(s, close, stream, f, c);
    KeepsCountOffWire(s, close);
    hide GetMoreResults, Blocks;
  }

  lemma SafeStepLoadAll(s: State, stream: seq<Entry>, f: nat, released: bool, c: nat)
    requires Safe(s, stream, f, released, c)
    ensures var t := LoadFully(s, false);
      && Safe(t, stream, f, released, c) && t.unsafeMoves == s.unsafeMoves && !t.haveResultInWire
  {
    if s.haveResultInWire { SafeLoadAll(s, stream, f, released, c); } else { LoadOffWire(s, stream, f, c); }
    hide LoadFully, Inv, Tracks, FlagOk, Stuck;
  }

  lemma KeepsCountOffWire(s: State, close: bool)
    requires s.cmdInformation.Some? && !s.haveResultInWire
    ensures GetMoreResults(s, close).0.unsafeMoves == s.unsafeMoves
    ensures GetMoreResults(s, close).1 != Exhausted
  {
    hide Settle, Advance, Blocks;
  }

  lemma LoadOffWire(s: State, stream: seq<Entry>, f: nat, c: nat)
    requires Inv(s, stream, f, c) && !s.haveResultInWire
    ensures var t := LoadFully(s, false);
      Inv(t, stream, f, c) && !t.haveResultInWire && t.unsafeMoves == s.unsafeMoves && t.pending == s.pending
  {
    SettledInv(s, Last(s), false, stream, f, c);
    hide Settle, Inv;
  }

  lemma {:induction false} SafeRun(s: State, script: seq<Op>, stream: seq<Entry>, f: nat, released: bool, c: nat)
    requires Safe(s, stream, f, released, c) && ReleasesOnce(script, released)
    requires NoStuckInReach(stream, f, s.binary)
    ensures s.cmdInformation.Some? && Run(s, script).0.unsafeMoves == s.unsafeMoves
    decreases |script|
  {
    if script != [] {
      var op := script[0];
      assert (op.Release? ==> !released) && ReleasesOnce(script[1..], NowReleased(op, released));
      assert s.haveResultInWire && c < |stream| ==> !Stuck(stream[c], f, s.binary);
      assert s.cmdInformation.Some?;
      RunCons(s, script);
      assert Apply(s, op).0.binary == s.binary;
      hide *;
      var d := SafeStep(s, op, stream, f, released, c);
      if !Stops(Apply(s, op).1) {
        SafeRun(Apply(s, op).0, script[1..], stream, f, NowReleased(op, released), d);
      }
    }
  }

  // ---------- walking along the stream ----------

  function Pulls(n: nat): (script: seq<Op>)
    ensures |script| == n
  {
    if n == 0 then [] else [GetMore(false)] + Pulls(n - 1)
  }

  /** No call of `getMoreResults` closes anything. */
  predicate Keeps(script: seq<Op>) {
    forall i :: 0 <= i < |script| && script[i].GetMore? ==> !script[i].close
  }

  lemma {:induction false} KeepsIsGentle(s: State, script: seq<Op>)
    requires s.cmdInformation.Some? && Keeps(script)
    ensures Gentle(s, script)
    decreases |script|
  {
    if script != [] {
      assert !BlocksOn(s, script[0]);
      KeepsIsGentle(Apply(s, script[0]).0, script[1..]);
      hide Apply;
    }
  }

  lemma {:induction false} PullsOnce(n: nat, script: seq<Op>)
    ensures Asked(Pulls(n)) == n
    ensures ReleasesOnce(script, false) ==> ReleasesOnce(Pulls(n) + script, false)
    ensures Keeps(script) ==> Keeps(Pulls(n) + script)
  {
    if n == 0 {
      assert Pulls(0) + script == script;
    } else {
      PullsOnce(n - 1, script);
      var rest := Pulls(n - 1) + script;
      Regroup([GetMore(false)], Pulls(n - 1), script);
      assert ([GetMore(false)] + rest)[1..] == rest && ([GetMore(false)] + Pulls(n - 1))[1..] == Pulls(n - 1);
      hide Pulls;
    }
  }

  /** Something is announced at response `i`. */
  predicate Announced(stream: seq<Entry>, f: nat, i: nat) {
    i < |stream| - 1 || StreamedTail(stream, f)
  }

  /** None of the first `i` result sets gets stuck. */
  ghost predicate NoStuckUpTo(stream: seq<Entry>, f: nat, binary: bool, i: nat) {
    forall j: nat :: j < i && j < |stream| ==> !Stuck(stream[j], f, binary)
  }

  lemma {:induction false} FirstStuck(stream: seq<Entry>, f: nat, binary: bool, i: nat) returns (k: nat)
    requires i < |stream| && Stuck(stream[i], f, binary)
    ensures k <= i && Stuck(stream[k], f, binary) && NoStuckUpTo(stream, f, binary, k)
    decreases i
  {
    if NoStuckUpTo(stream, f, binary, i) {
      k := i;
    } else {
      var j: nat :| j < i && j < |stream| && Stuck(stream[j], f, binary);
      k := FirstStuck(stream, f, binary, j);
    }
  }

  /** Pulling reaches response `i`, safely and with the right answers. */
  ghost predicate Walks(s: State, stream: seq<Entry>, f: nat, c: nat, i: nat)
    requires s.cmdInformation.Some? && c <= i
  {
    var (t, answers) := Run(s, Pulls(i - c));
    && At(t, stream, f, i) && t.haveResultInWire == Announced(stream, f, i)
    && t.unsafeMoves == s.unsafeMoves && t.binary == s.binary
    && answers == Answers(stream, c, i - c)
  }

  lemma {:induction false} WalkTo(s: State, stream: seq<Entry>, f: nat, c: nat, i: nat)
    requires At(s, stream, f, c) && c <= i < |stream| && NoBadUpTo(stream, i) && NoStuckUpTo(stream, f, s.binary, i)
    requires s.haveResultInWire == Announced(stream, f, c)
    ensures s.cmdInformation.Some? && Walks(s, stream, f, c, i)
    decreases i - c
  {
    hide *;
    if c == i {
      WalkNone(s, stream, f, c);
    } else {
      WalkStart(s, stream, f, c, i);
      WalkOne(s, stream, f, c);
      WalkTo(GetMoreResults(s, false).0, stream, f, c + 1, i);
      WalkCons(s, stream, f, c, i);
    }
  }

  lemma WalkStart(s: State, stream: seq<Entry>, f: nat, c: nat, i: nat)
    requires At(s, stream, f, c) && c < i < |stream| && NoBadUpTo(stream, i) && NoStuckUpTo(stream, f, s.binary, i)
    ensures s.cmdInformation.Some? && Announced(stream, f, c) && !Bad(stream, c + 1)
    ensures !Stuck(stream[c], f, s.binary)
  {
    hide Bad, StreamedTail, Stuck;
  }

  lemma WalkNone(s: State, stream: seq<Entry>, f: nat, c: nat)
    requires At(s, stream, f, c) && s.haveResultInWire == Announced(stream, f, c)
    ensures s.cmdInformation.Some? && Walks(s, stream, f, c, c)
  {
    RunEmpty(s, stream, c);
    PullsZero();
    hide Run;
  }

  lemma PullsZero()
    ensures Pulls(0) == []
  {
  }

  lemma WalkOne(s: State, stream: seq<Entry>, f: nat, c: nat)
    requires At(s, stream, f, c) && c + 1 < |stream| && s.haveResultInWire && !Stuck(stream[c], f, s.binary)
    ensures s.cmdInformation.Some?
    ensures var (t, o) := GetMoreResults(s, false);
      && At(t, stream, f, c + 1) && o == Expected(stream, c + 1)
      && t.unsafeMoves == s.unsafeMoves && t.binary == s.binary
      && t.haveResultInWire == (Announced(stream, f, c + 1) && !Bad(stream, c + 1))
      && t.pending == stream[c + 2..]
  {
    assert s.pending == stream[c + 1..] && s.pending[1..] == stream[c + 2..];
    StepGetMore(s, false, stream, f, c);
    SafeGetMore(s, false, stream, f, false, c);
    hide GetMoreResults, At, Safe, Inv, Stuck;
  }

  lemma WalkCons(s: State, stream: seq<Entry>, f: nat, c: nat, i: nat)
    requires s.cmdInformation.Some? && c < i
    requires var (t, o) := GetMoreResults(s, false);
      o == Expected(stream, c + 1) && t.unsafeMoves == s.unsafeMoves && Walks(t, stream, f, c + 1, i)
    ensures Walks(s, stream, f, c, i)
  {
    var n := i - c;
    assert Pulls(n)[1..] == Pulls(n - 1) && Pulls(n)[0] == GetMore(false);
    RunCons(s, Pulls(n));
    assert !Final(Expected(stream, c + 1));
    assert Answers(stream, c, n) == [Expected(stream, c + 1)] + Answers(stream, c + 1, n - 1);
    hide GetMoreResults, Run, Expected, Pulls, Answers, At, Announced;
  }

  // ---------- the exact condition ----------

  ghost predicate SafeScript(stream: seq<Entry>, f: nat, binary: bool, script: seq<Op>)
    requires stream != [] && NoCallable(stream)
  {
    StartInv(stream, f, binary);
    Run(Start(stream, f, binary), script).0.unsafeMoves == 0
  }

  /** From state `t` on, `script` is what follows a walk to response `i`. */
  ghost predicate Behind(stream: seq<Entry>, f: nat, binary: bool, i: nat, script: seq<Op>, t: State)
    requires stream != [] && NoCallable(stream) && t.cmdInformation.Some?
  {
    StartInv(stream, f, binary);
    var (u, answers) := Run(Start(stream, f, binary), Pulls(i) + script);
    && u == Run(t, script).0 && answers == Answers(stream, 0, i) + Run(t, script).1
    && Asked(Pulls(i) + script) == i + Asked(script)
  }

  /** A script after a walk from the start. */
  lemma AfterWalk(stream: seq<Entry>, f: nat, binary: bool, i: nat, script: seq<Op>) returns (t: State)
    requires stream != [] && NoCallable(stream) && i < |stream|
    requires NoBadUpTo(stream, i) && NoStuckUpTo(stream, f, binary, i)
    ensures At(t, stream, f, i) && t.haveResultInWire == Announced(stream, f, i)
    ensures t.unsafeMoves == 0 && t.binary == binary
    ensures t.cmdInformation.Some? && Behind(stream, f, binary, i, script, t)
    ensures ReleasesOnce(script, false) ==> ReleasesOnce(Pulls(i) + script, false)
    ensures Keeps(script) ==> Keeps(Pulls(i) + script)
  {
    hide *;
    t := WalkFromStart(stream, f, binary, i);
    PullsOnce(i, script);
    ThenBehind(stream, f, binary, i, script, t);
  }

  lemma WalkFromStart(stream: seq<Entry>, f: nat, binary: bool, i: nat) returns (t: State)
    requires stream != [] && NoCallable(stream) && i < |stream|
    requires NoBadUpTo(stream, i) && NoStuckUpTo(stream, f, binary, i)
    ensures At(t, stream, f, i) && t.haveResultInWire == Announced(stream, f, i)
    ensures t.unsafeMoves == 0 && t.binary == binary && t.cmdInformation.Some?
    ensures Start(stream, f, binary).cmdInformation.Some?
    ensures Run(Start(stream, f, binary), Pulls(i)) == (t, Answers(stream, 0, i))
  {
    StartInv(stream, f, binary);
    StartAt(stream, f, binary);
    var s := Start(stream, f, binary);
    assert s.haveResultInWire == Announced(stream, f, 0) by { hide Start; }
    hide Start, Run, At, Pulls, Answers, Announced, Inv, NoBadUpTo, NoStuckUpTo;
    WalkTo(s, stream, f, 0, i);
    assert i - 0 == i;
    t := Run(s, Pulls(i)).0;
  }

  lemma ThenBehind(stream: seq<Entry>, f: nat, binary: bool, i: nat, script: seq<Op>, t: State)
    requires stream != [] && NoCallable(stream) && t.cmdInformation.Some?
    ensures Start(stream, f, binary).cmdInformation.Some?
    ensures Run(Start(stream, f, binary), Pulls(i)) == (t, Answers(stream, 0, i)) ==> Behind(stream, f, binary, i, script, t)
  {
    StartInv(stream, f, binary);
    AnswersGoOn(stream, 0, i);
    PullsOnce(i, script);
    hide Start, Run, Pulls, Answers, Asked, Inv;
    var s := Start(stream, f, binary);
    if Run(s, Pulls(i)) == (t, Answers(stream, 0, i)) { RunAppend(s, Pulls(i), script); }
  }

  lemma {:induction false} AnswersGoOn(stream: seq<Entry>, c: nat, n: nat)
    ensures forall o :: o in Answers(stream, c, n) ==> !Final(o)
    decreases n
  {
    if n > 0 { AnswersGoOn(stream, c + 1, n - 1); }
  }

  /** Keeping a stuck result set and moving on is unsafe. */
  lemma KeepingStuckUnsafe(t: State, stream: seq<Entry>, f: nat, i: nat)
    requires At(t, stream, f, i) && t.haveResultInWire && Stuck(stream[i], f, t.binary)
    ensures t.cmdInformation.Some? && GetMoreResults(t, false).0.unsafeMoves == t.unsafeMoves + 1
  {
    var s1 := Settle(t, Present(t), false);
    assert Present(t) == Some(i) && i in s1.rows && Unread(s1.rows[i]);
    hide Settle, GetResult, Advance, Blocks;
    assert !Blocks(t, false);
  }

  lemma RunOne(s: State, op: Op)
    requires s.cmdInformation.Some?
    ensures Run(s, [op]) == Apply(s, op)
  {
    RunCons(s, [op]);
    assert [op][1..] == [];
    hide Apply;
    Regroup(Apply(s, op).1, [], []);
  }

  lemma WireSafe(stream: seq<Entry>, f: nat, binary: bool, script: seq<Op>)
    requires stream != [] && NoCallable(stream) && NoStuckInReach(stream, f, binary) && ReleasesOnce(script, false)
    ensures SafeScript(stream, f, binary, script)
  {
    StartInv(stream, f, binary);
    StartAt(stream, f, binary);
    hide Start, Run, Inv, ReleasesOnce, NoStuckInReach, Tracks, FlagOk;
    SafeRun(Start(stream, f, binary), script, stream, f, false, 0);
  }

  lemma WireUnsafe(stream: seq<Entry>, f: nat, binary: bool, i: nat) returns (script: seq<Op>)
    requires stream != [] && NoCallable(stream)
    requires i < |stream| && NoBadUpTo(stream, i) && Stuck(stream[i], f, binary)
    ensures ReleasesOnce(script, false) && !SafeScript(stream, f, binary, script)
  {
    var last := [GetMore(false)];
    var k := FirstStuck(stream, f, binary, i);
    assert NoBadUpTo(stream, k);
    StuckAnnounced(stream, f, binary, k);
    assert ReleasesOnce(last, false) by { assert last[1..] == []; }
    hide Start, GetMoreResults, Run, At, ReleasesOnce, Pulls, Stuck, NoBadUpTo, Announced, NoStuckUpTo;
    var t := AfterWalk(stream, f, binary, k, last);
    KeepingStuckUnsafe(t, stream, f, k);
    RunOne(t, GetMore(false));
    script := Pulls(k) + last;
  }

  lemma StuckAnnounced(stream: seq<Entry>, f: nat, binary: bool, i: nat)
    requires i < |stream| && Stuck(stream[i], f, binary)
    ensures Announced(stream, f, i)
  {
  }

  /** Runs that release each result at most once never move on while rows of an earlier result
      are neither read nor discarded, exactly when no binary result set that is read several rows
      at a time, and has at least that many, can be reached by pulling: that one is not read to
      its end when it is kept. */
  lemma WireSafeIff(stream: seq<Entry>, f: nat, binary: bool)
    requires stream != [] && NoCallable(stream)
    ensures (forall script :: ReleasesOnce(script, false) ==> SafeScript(stream, f, binary, script))
        <==> NoStuckInReach(stream, f, binary)
  {
    hide SafeScript, ReleasesOnce, Stuck, NoBadUpTo;
    if NoStuckInReach(stream, f, binary) {
      forall script | ReleasesOnce(script, false) ensures SafeScript(stream, f, binary, script) {
        WireSafe(stream, f, binary, script);
      }
    } else {
      var i: nat :| i < |stream| && NoBadUpTo(stream, i) && Stuck(stream[i], f, binary);
      var script := WireUnsafe(stream, f, binary, i);
    }
  }

  // ---------- releasing more than once ----------

  /** Releasing once more makes the next move unsafe exactly when the result set under the cursor
      has unread rows and had been released before, or is stuck and kept. */
  lemma SecondReleaseUnsafeIff(s: State, close: bool, stream: seq<Entry>, f: nat, released: bool, c: nat)
    requires Safe(s, stream, f, released, c) && s.haveResultInWire && s.cmdInformation.Some?
    ensures var t := GetMoreResults(ReleaseResultSet(s).0, close).0;
      t.unsafeMoves == s.unsafeMoves
        + if c in s.rows && Unread(s.rows[c]) && (released || (!close && Sticks(s, c))) then 1 else 0
  {
    var r := ReleaseResultSet(s).0;
    var r1 := Settle(r, Present(r), close);
    if released { assert Present(r) == None && r1 == r && !Blocks(r, close); }
    if Blocks(r, close) { return; }
    assert AllRead(r1) <==> !(c in s.rows && Unread(s.rows[c]) && (released || (!close && Sticks(s, c)))) by {
      hide Settle, Inv;
    }
    hide Settle, Inv, GetResult, Advance;
  }

  /** No unread rows at all can be reached while something is announced. */
  ghost predicate NoUnreadInReach(stream: seq<Entry>, f: nat, binary: bool) {
    forall i: nat :: i < |stream| && NoBadUpTo(stream, i) && Announced(stream, f, i) && stream[i].Select? ==>
      !Unread(NewRows(stream[i], f, binary))
  }

  /** The bit is right, and nothing is unread, or at most in the client library's buffer. */
  ghost predicate Calm(s: State, buffered: bool) {
    s.haveResultInWire ==>
      && s.more == (s.pending != [])
      && forall id :: id in s.rows && Unread(s.rows[id]) ==> buffered && s.rows[id].Buffered?
  }

  lemma CalmSettled(s: State, id: Option<nat>, close: bool, buffered: bool)
    requires Calm(s, buffered)
    ensures Calm(Settle(s, id, close), buffered)
  {
    hide Settle;
  }

  /** A pull from a calm state: calm again, unless the response just read is not. */
  lemma CalmGetMore(s: State, close: bool, stream: seq<Entry>, f: nat, buffered: bool, c: nat)
    requires Inv(s, stream, f, c) && Calm(s, buffered)
    requires c + 1 < |stream| && stream[c + 1].Select? && Announced(stream, f, c + 1) && s.haveResultInWire ==>
      var r := NewRows(stream[c + 1], f, s.binary); Unread(r) ==> buffered && r.Buffered?
    ensures s.cmdInformation.Some? && Calm(GetMoreResults(s, close).0, buffered)
    ensures !buffered ==> GetMoreResults(s, close).0.unsafeMoves == s.unsafeMoves
  {
    if Blocks(s, close) {
    } else if s.haveResultInWire {
      var s1 := Settle(s, Present(s), close);
      SettledInv(s, Present(s), close, stream, f, c);
      MovedInv(s1, stream, f, c);
      CalmSettled(s, Present(s), close, buffered);
      hide Settle;
      var s2 := Move(s1);
      assert !buffered ==> s2 == s1;
      if s2.pending != [] {
        CalmPull(s2, stream, f, buffered, c);
        hide Advance, GetResult, Move, Inv;
      }
    } else {
      PullOffWire(s, close, stream, f, c);
      hide GetMoreResults;
    }
  }

  lemma CalmPull(s: State, stream: seq<Entry>, f: nat, buffered: bool, c: nat)
    requires Inv(s, stream, f, c) && Calm(s, buffered) && s.haveResultInWire && s.pending != []
    requires stream[c + 1].Select? && Announced(stream, f, c + 1) ==>
      var r := NewRows(stream[c + 1], f, s.binary); Unread(r) ==> buffered && r.Buffered?
    ensures Calm(Advance(GetResult(s)).0, buffered)
  {
    PullRows(s, stream, f, c);
    PullEntry(s, stream, f, c);
    hide GetResult, Advance, Inv, Bad, StreamedTail;
  }

  lemma CalmStep(s: State, op: Op, stream: seq<Entry>, f: nat, buffered: bool, c: nat) returns (d: nat)
    requires Inv(s, stream, f, c) && Calm(s, buffered)
    requires c + 1 < |stream| && stream[c + 1].Select? && Announced(stream, f, c + 1) && s.haveResultInWire ==>
      var r := NewRows(stream[c + 1], f, s.binary); Unread(r) ==> buffered && r.Buffered?
    ensures s.cmdInformation.Some? && Inv(Apply(s, op).0, stream, f, d) && Calm(Apply(s, op).0, buffered)
    ensures !buffered ==> Apply(s, op).0.unsafeMoves == s.unsafeMoves
  {
    d := StepInv(s, op, stream, f, c);
    hide GetMoreResults, Inv, Calm, NewRows, Announced, LoadFully, CloseRows, ReadThrough, ReleaseResultSet;
    if op.GetMore? {
      CalmGetMore(s, op.close, stream, f, buffered, c);
    } else if op.LoadAll? {
      CalmLoadAll(s, stream, f, buffered, c);
    } else {
      CalmTouch(s, if op.Release? then 0 else op.id, buffered);
    }
  }

  lemma CalmTouch(s: State, id: nat, buffered: bool)
    requires Calm(s, buffered)
    ensures Calm(ReleaseResultSet(s).0, buffered) && ReleaseResultSet(s).0.unsafeMoves == s.unsafeMoves
    ensures Calm(CloseRows(s, id), buffered) && CloseRows(s, id).unsafeMoves == s.unsafeMoves
    ensures Calm(ReadThrough(s, id), buffered) && ReadThrough(s, id).unsafeMoves == s.unsafeMoves
  {
    hide CloseRows, ReadThrough;
  }

  lemma CalmLoadAll(s: State, stream: seq<Entry>, f: nat, buffered: bool, c: nat)
    requires Inv(s, stream, f, c) && Calm(s, buffered)
    ensures !LoadFully(s, false).haveResultInWire && Calm(LoadFully(s, false), buffered)
    ensures !buffered ==> LoadFully(s, false).unsafeMoves == s.unsafeMoves
  {
    var s1 := Settle(s, Last(s), false);
    CalmSettled(s, Last(s), false, buffered);
    assert NoCallable(s1.pending);
    hide Settle, Inv;
    if s1.haveResultInWire && !buffered { SafeDrain(s1.(cachingLocally := true)); }
  }

  lemma {:induction false} CalmRun(s: State, script: seq<Op>, stream: seq<Entry>, f: nat, c: nat)
    requires Inv(s, stream, f, c) && Calm(s, false) && NoUnreadInReach(stream, f, s.binary)
    ensures s.cmdInformation.Some? && Run(s, script).0.unsafeMoves == s.unsafeMoves
    decreases |script|
  {
    assert s.cmdInformation.Some?;
    if script != [] {
      var op := script[0];
      RunCons(s, script);
      assert Apply(s, op).0.binary == s.binary;
      if s.haveResultInWire { NextCalm(s, stream, f, c); }
      hide *;
      var d := CalmStep(s, op, stream, f, false, c);
      if !Stops(Apply(s, op).1) { CalmRun(Apply(s, op).0, script[1..], stream, f, d); }
    }
  }

  /** A response that the pull makes unreachable announces nothing, so its rows do not matter. */
  lemma NextCalm(s: State, stream: seq<Entry>, f: nat, c: nat)
    requires Inv(s, stream, f, c) && NoUnreadInReach(stream, f, s.binary) && s.haveResultInWire
    ensures c + 1 < |stream| && stream[c + 1].Select? && Announced(stream, f, c + 1) ==>
      !Unread(NewRows(stream[c + 1], f, s.binary))
  {
    assert !Bad(stream, c + 1) || stream[c + 1].Update?;
    if c + 1 < |stream| && stream[c + 1].Select? { assert NoBadUpTo(stream, c + 1); }
  }

  lemma CalmSafe(stream: seq<Entry>, f: nat, binary: bool, script: seq<Op>)
    requires stream != [] && NoCallable(stream) && NoUnreadInReach(stream, f, binary)
    ensures SafeScript(stream, f, binary, script)
  {
    StartInv(stream, f, binary);
    StartCalm(stream, f, binary);
    hide Start, Run, Inv, Calm, NoUnreadInReach;
    CalmRun(Start(stream, f, binary), script, stream, f, 0);
  }

  lemma StartCalm(stream: seq<Entry>, f: nat, binary: bool)
    requires stream != [] && NoCallable(stream) && NoUnreadInReach(stream, f, binary)
    ensures Calm(Start(stream, f, binary), false)
  {
    StartInv(stream, f, binary);
    assert NoBadUpTo(stream, 0);
    hide Start, Inv;
  }

  lemma UncalmUnsafe(stream: seq<Entry>, f: nat, binary: bool, i: nat) returns (script: seq<Op>)
    requires stream != [] && NoCallable(stream)
    requires i < |stream| && NoBadUpTo(stream, i) && Announced(stream, f, i) && stream[i].Select?
    requires Unread(NewRows(stream[i], f, binary))
    ensures !SafeScript(stream, f, binary, script)
  {
    var last := [Release, Release, GetMore(true)];
    var k := FirstUnread(stream, f, binary, i);
    hide Start, Run, At, NewRows, Pulls, Announced, NoBadUpTo, NoStuckUpTo;
    var t := AfterWalk(stream, f, binary, k, last);
    script := Pulls(k) + last;
    ReleasedTwice(t, stream, f, k);
  }

  lemma FirstUnread(stream: seq<Entry>, f: nat, binary: bool, i: nat) returns (k: nat)
    requires i < |stream| && NoBadUpTo(stream, i) && Announced(stream, f, i) && stream[i].Select?
    requires Unread(NewRows(stream[i], f, binary))
    ensures k < |stream| && NoBadUpTo(stream, k) && NoStuckUpTo(stream, f, binary, k) && Announced(stream, f, k)
    ensures stream[k].Select? && Unread(NewRows(stream[k], f, binary))
  {
    k := i;
    if !NoStuckUpTo(stream, f, binary, i) {
      var j: nat :| j < i && j < |stream| && Stuck(stream[j], f, binary);
      k := FirstStuck(stream, f, binary, j);
    }
  }

  /** Runs that release as often as they like are safe exactly when no result set with unread
      rows can be reached while something is announced. */
  lemma AnyReleaseSafeIff(stream: seq<Entry>, f: nat, binary: bool)
    requires stream != [] && NoCallable(stream)
    ensures (forall script :: SafeScript(stream, f, binary, script)) <==> NoUnreadInReach(stream, f, binary)
  {
    hide SafeScript, NewRows, NoBadUpTo, Announced, Unread;
    if NoUnreadInReach(stream, f, binary) {
      forall script ensures SafeScript(stream, f, binary, script) {
        CalmSafe(stream, f, binary, script);
      }
    } else {
      var i: nat :| i < |stream| && NoBadUpTo(stream, i) && Announced(stream, f, i) && stream[i].Select?
        && Unread(NewRows(stream[i], f, binary));
      var script := UncalmUnsafe(stream, f, binary, i);
    }
  }

  lemma ReleasedTwice(t: State, stream: seq<Entry>, f: nat, i: nat)
    requires At(t, stream, f, i) && t.haveResultInWire && stream[i].Select?
    requires Unread(NewRows(stream[i], f, t.binary))
    ensures t.cmdInformation.Some?
    ensures Run(t, [Release, Release, GetMore(true)]).0.unsafeMoves == t.unsafeMoves + 1
  {
    SafeRelease(t, stream, f, i);
    var t1 := ReleaseResultSet(t).0;
    assert i in t1.rows && Unread(t1.rows[i]);
    SecondReleaseUnsafeIff(t1, true, stream, f, true, i);
    hide GetMoreResults, Inv, Tracks;
    RunThree(t, Release, Release, GetMore(true));
  }

  lemma RunThree(s: State, a: Op, b: Op, c: Op)
    requires s.cmdInformation.Some? && !a.GetMore? && !b.GetMore?
    ensures Run(s, [a, b, c]).0 == Apply(Apply(Apply(s, a).0, b).0, c).0
  {
    var script := [a, b, c];
    assert script[1..] == [b, c] && [b, c][1..] == [c];
    assert Apply(s, a).1 == [] && Apply(Apply(s, a).0, b).1 == [];
    hide Apply;
    RunCons(s, script);
    RunCons(Apply(s, a).0, [b, c]);
    RunOne(Apply(Apply(s, a).0, b).0, c);
  }

  /** Two buffered results of a server-side prepared statement, the first released twice: its
      rows are overwritten. Text results own their rows, so there the same run is harmless. */
  lemma SecondReleaseUnsafe(rowCount: nat, binary: bool)
    ensures var stream := [Select(false, rowCount), Select(false, rowCount)];
      && NoCallable(stream) && Start(stream, 0, binary).cmdInformation.Some?
      && Run(Start(stream, 0, binary), [Release, Release, GetMore(true)]).0.unsafeMoves == if binary then 1 else 0
  {
    var stream := [Select(false, rowCount), Select(false, rowCount)];
    if binary { BinaryHarmed(stream); } else { TextHarmless(stream, [Release, Release, GetMore(true)]); }
    hide Start, Run;
  }

  lemma BinaryHarmed(stream: seq<Entry>)
    requires |stream| == 2 && NoCallable(stream) && stream[0].Select?
    ensures Start(stream, 0, true).cmdInformation.Some?
    ensures Run(Start(stream, 0, true), [Release, Release, GetMore(true)]).0.unsafeMoves == 1
  {
    StartInv(stream, 0, true);
    StartAt(stream, 0, true);
    hide Start, Run, At, Inv;
    ReleasedTwice(Start(stream, 0, true), stream, 0, 0);
  }

  lemma TextHarmless(stream: seq<Entry>, script: seq<Op>)
    requires stream != [] && NoCallable(stream)
    ensures Start(stream, 0, false).cmdInformation.Some?
    ensures Run(Start(stream, 0, false), script).0.unsafeMoves == 0
  {
    StartInv(stream, 0, false);
    hide Start, Run, Inv;
    CalmSafe(stream, 0, false, script);
  }
}
