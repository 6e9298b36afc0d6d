/** What becomes of the rows: no result set is thrown away unless the application asks for it
    (src/Results.cpp:341-350 and 421-436). */
module RowsKept {
  import opened Strings
  import opened ResultStream
  import opened ResultRuns

  predicate ClosedIn(s: State, id: nat) {
    id in s.rows && s.rows[id].Closed?
  }

  /** The operation throws the result set away: the application closes it, or asks for it to be
      closed as the present one when it moves on. */
  predicate Discards(s: State, op: Op, id: nat) {
    && id in s.rows
    && (op == AppClose(id) || (op == GetMore(true) && Present(s) == Some(id) && !Blocks(s, true)))
  }

  /** Some operation of the run does. */
  predicate Discarded(s: State, script: seq<Op>, id: nat)
    requires s.cmdInformation.Some?
    decreases |script|
  {
    script != [] &&
    (Discards(s, script[0], id)
     || (!Stops(Apply(s, script[0]).1) && Discarded(Apply(s, script[0]).0, script[1..], id)))
  }

  /** Exactly the result sets that have arrived have rows. */
  ghost predicate RowsDom(s: State, stream: seq<Entry>) {
    && s.taken <= |stream|
    && forall id: nat :: id in s.rows <==> id < s.taken && stream[id].Select?
  }

  // ---------- one operation ----------

  /** What settling does to one result set: closing discards the one it is for; keeping copies its
      rows, unless it is stuck. */
  lemma SettledRows(s: State, id: Option<nat>, close: bool, i: nat)
    requires i in s.rows
    ensures var t := Settle(s, id, close);
      && t.rows.Keys == s.rows.Keys
      && t.rows[i] == if id != Some(i) then s.rows[i]
                      else if close then Closed
                      else if Unread(s.rows[i]) && !Sticks(s, i) then Cached else s.rows[i]
  {
    hide ReadOut;
  }

  lemma NewNotClosed(s: State)
    requires s.pending != [] && (s.pending[0].Select? ==> !s.pending[0].callable)
    ensures var t := GetResult(s);
      && (s.pending[0].Update? ==> t.rows == s.rows)
      && (s.pending[0].Select? ==> t.rows == s.rows[s.taken := t.rows[s.taken]] && s.taken in t.rows
                                   && !t.rows[s.taken].Closed?)
  {
    hide GetResult;
    if s.pending[0].Update? { GetUpdate(s); } else { GetSelectRows(s); }
  }

  /** Reading one more response. */
  lemma GotRows(s: State, stream: seq<Entry>, i: nat)
    requires NoCallable(stream) && RowsDom(s, stream) && s.pending == stream[s.taken..] && s.pending != []
    ensures var t := GetResult(s);
      && RowsDom(t, stream) && t.taken == s.taken + 1 && t.pending == stream[t.taken..]
      && (i in s.rows ==> i in t.rows && t.rows[i] == s.rows[i])
      && (i !in s.rows ==> !ClosedIn(t, i))
  {
    assert s.pending[0] == stream[s.taken] && s.pending[1..] == stream[s.taken + 1..];
    NewNotClosed(s);
    hide GetResult, NoCallable;
  }

  lemma SameRows(s: State, t: State, stream: seq<Entry>)
    requires RowsDom(s, stream) && t.rows.Keys == s.rows.Keys && t.taken == s.taken
    ensures RowsDom(t, stream)
  {
  }

  /** Draining leaves the rows of every earlier result set alone, and discards none of the new. */
  lemma {:induction false} DrainedRows(s: State, stream: seq<Entry>, i: nat)
    requires NoCallable(stream) && RowsDom(s, stream) && s.pending == stream[s.taken..]
    ensures RowsDom(Drain(s), stream)
    ensures i in s.rows ==> i in Drain(s).rows && Drain(s).rows[i] == s.rows[i]
    ensures i !in s.rows ==> !ClosedIn(Drain(s), i)
    decreases |s.pending|
  {
    if s.more && s.pending != [] {
      var m := Move(s);
      hide AllRead, GetResult, RowsDom, NoCallable;
      SameRows(s, m, stream);
      GotRows(m, stream, i);
      DrainedRows(GetResult(m), stream, i);
    }
  }

  lemma PulledRows(s: State, close: bool, stream: seq<Entry>, f: nat, c: nat, i: nat)
    requires Inv(s, stream, f, c) && RowsDom(s, stream) && s.cmdInformation.Some?
    ensures var t := MoveOn(s, close).0;
      && RowsDom(t, stream)
      && (i in s.rows ==> i in t.rows && t.rows[i] == Settle(s, Present(s), close).rows[i])
      && (i !in s.rows ==> !ClosedIn(t, i))
  {
    var s1 := Settle(s, Present(s), close);
    assert s1.rows.Keys == s.rows.Keys && s1.pending == s.pending == stream[s.taken..] && s1.taken == s.taken by { hide Settle; }
    assert NoCallable(stream);
    MoveOnRows(s, close);
    hide Settle, MoveOn, Inv, AllRead, GetResult, RowsDom, NoCallable;
    SameRows(s, s1, stream);
    var t := MoveOn(s, close).0;
    if s1.haveResultInWire && s1.pending != [] {
      var m := Move(s1);
      SameRows(s1, m, stream);
      GotRows(m, stream, i);
      SameRows(GetResult(m), t, stream);
    } else {
      SameRows(s1, t, stream);
    }
  }

  lemma LoadedRows(s: State, stream: seq<Entry>, f: nat, c: nat, i: nat)
    requires Inv(s, stream, f, c) && RowsDom(s, stream)
    ensures var t := LoadFully(s, false);
      && RowsDom(t, stream)
      && (i in s.rows ==> i in t.rows && t.rows[i] == Settle(s, Last(s), false).rows[i])
      && (i !in s.rows ==> !ClosedIn(t, i))
  {
    var s1 := Settle(s, Last(s), false);
    assert s1.rows.Keys == s.rows.Keys && s1.pending == s.pending == stream[s.taken..] && s1.taken == s.taken by { hide Settle; }
    assert NoCallable(stream);
    hide Settle, Inv;
    DrainedRows(s1.(cachingLocally := true), stream, i);
    hide Drain;
  }

  /** Moving on with the current result set kept, and loading the rest, discard nothing: what was
      readable is readable, and the present result set's rows have been copied unless it is
      stuck. */
  lemma KeepingKeepsRows(s: State, stream: seq<Entry>, f: nat, c: nat, i: nat)
    requires Inv(s, stream, f, c) && RowsDom(s, stream) && s.cmdInformation.Some? && i in s.rows
    ensures var t := GetMoreResults(s, false).0;
      && i in t.rows && (t.rows[i].Closed? <==> s.rows[i].Closed?)
      && t.rows[i] == if Present(s) == Some(i) && Unread(s.rows[i]) && !Sticks(s, i) then Cached else s.rows[i]
    ensures var t := LoadFully(s, false);
      && i in t.rows && (t.rows[i].Closed? <==> s.rows[i].Closed?)
      && t.rows[i] == if Last(s) == Some(i) && Unread(s.rows[i]) && !Sticks(s, i) then Cached else s.rows[i]
  {
    SettledRows(s, Present(s), false, i);
    SettledRows(s, Last(s), false, i);
    PulledRows(s, false, stream, f, c, i);
    LoadedRows(s, stream, f, c, i);
    hide Settle, MoveOn, LoadFully, Inv;
  }

  /** Skipping the rest discards the last result set that was read, and no other. */
  lemma SkippedRows(s: State, i: nat)
    requires i in s.rows
    ensures var t := LoadFully(s, true); i in t.rows && t.rows[i] == if Last(s) == Some(i) then Closed else s.rows[i]
  {
    SettledRows(s, Last(s), true, i);
    hide Settle;
  }

  lemma RowsStep(s: State, op: Op, stream: seq<Entry>, f: nat, c: nat, i: nat)
    requires Inv(s, stream, f, c) && RowsDom(s, stream)
    ensures s.cmdInformation.Some? && RowsDom(Apply(s, op).0, stream)
    ensures ClosedIn(Apply(s, op).0, i) <==> ClosedIn(s, i) || Discards(s, op, i)
  {
    assert s.cmdInformation.Some?;
    if op.GetMore? {
      RowsGetMore(s, op.close, stream, f, c, i);
      hide GetMoreResults, Inv, RowsDom, Blocks;
    } else if op.LoadAll? {
      LoadedRows(s, stream, f, c, i);
      if i in s.rows { SettledRows(s, Last(s), false, i); }
      hide LoadFully, Settle, Inv, RowsDom;
    } else {
      hide CloseRows, ReadThrough, Inv;
    }
  }

  lemma RowsGetMore(s: State, close: bool, stream: seq<Entry>, f: nat, c: nat, i: nat)
    requires Inv(s, stream, f, c) && RowsDom(s, stream) && s.cmdInformation.Some?
    ensures RowsDom(GetMoreResults(s, close).0, stream)
    ensures ClosedIn(GetMoreResults(s, close).0, i) <==>
      ClosedIn(s, i) || (i in s.rows && close && Present(s) == Some(i) && !Blocks(s, true))
  {
    PulledRows(s, close, stream, f, c, i);
    if i in s.rows { SettledRows(s, Present(s), close, i); }
    hide MoveOn, Settle, Inv, RowsDom;
  }

  // ---------- runs ----------

  lemma {:induction false} RowsRun(s: State, script: seq<Op>, stream: seq<Entry>, f: nat, c: nat, i: nat)
    requires Inv(s, stream, f, c) && RowsDom(s, stream) && s.cmdInformation.Some?
    ensures RowsDom(Run(s, script).0, stream)
    ensures ClosedIn(Run(s, script).0, i) <==> ClosedIn(s, i) || Discarded(s, script, i)
    decreases |script|
  {
    if script != [] {
      RunCons(s, script);
      hide *;
      RowsStep(s, script[0], stream, f, c, i);
      DiscardedCons(s, script, i);
      if !Stops(Apply(s, script[0]).1) {
        var d := StepInv(s, script[0], stream, f, c);
        RowsRun(Apply(s, script[0]).0, script[1..], stream, f, d, i);
      }
    }
  }

  lemma DiscardedCons(s: State, script: seq<Op>, i: nat)
    requires s.cmdInformation.Some? && script != []
    ensures Discarded(s, script, i) <==>
      Discards(s, script[0], i)
      || (!Stops(Apply(s, script[0]).1) && Discarded(Apply(s, script[0]).0, script[1..], i))
  {
    hide Apply, Discards;
  }

  /** In every run over every stream: each result set that has arrived is still there to be read,
      except exactly those that the application closed, or had closed when it moved on. */
  lemma RowsLostIff(stream: seq<Entry>, f: nat, binary: bool, script: seq<Op>, id: nat)
    requires stream != [] && NoCallable(stream)
    ensures Start(stream, f, binary).cmdInformation.Some?
    ensures var s := Start(stream, f, binary);
      var t := Run(s, script).0;
      && (id in t.rows <==> id < t.taken <= |stream| && stream[id].Select?)
      && (id in t.rows ==> (t.rows[id].Closed? <==> Discarded(s, script, id)))
      && (Discarded(s, script, id) ==> id in t.rows)
  {
    StartInv(stream, f, binary);
    var s := Start(stream, f, binary);
    assert s.taken == 1 by { StartTaken(stream, f, binary); }
    assert RowsDom(s, stream) && !ClosedIn(s, id) by { hide Start; }
    hide Start, Run, Inv, Discarded;
    RowsRun(s, script, stream, f, 0, id);
  }

  lemma StartTaken(stream: seq<Entry>, f: nat, binary: bool)
    requires stream != []
    ensures Start(stream, f, binary).taken == 1
  {
    hide GetResult;
  }
}
