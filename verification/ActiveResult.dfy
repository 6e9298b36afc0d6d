/** When a statement's `Results` is the protocol's active streaming result, which is what makes the
    next statement on the connection drain it first (src/protocol/capi/QueryProtocol.cpp:1684-1688
    and 1747-1753). */
module ActiveResult {
  import opened Strings
  import opened ResultStream
  import opened ResultRuns

  /** A result set has been read, as response `c` or before. */
  ghost predicate SelectSeen(stream: seq<Entry>, c: nat) {
    exists j :: 0 <= j <= c && j < |stream| && stream[j].Select?
  }

  /** While responses are announced and pending, this is the active result exactly when a result
      set has been read: only that registers it, a mere update count does not. */
  ghost predicate ActiveOk(s: State, stream: seq<Entry>, c: nat) {
    s.haveResultInWire && s.pending != [] ==> (s.active <==> SelectSeen(stream, c))
  }

  lemma SettledActive(s: State, id: Option<nat>, close: bool)
    requires s.pending != []
    ensures Settle(s, id, close).active == s.active
  {
  }

  lemma TouchedActive(s: State, id: nat)
    requires s.pending != []
    ensures CloseRows(s, id).active == s.active && ReadThrough(s, id).active == s.active
  {
  }

  lemma GotActive(s: State)
    requires |s.pending| > 1 && (s.pending[0].Select? ==> !s.pending[0].callable) && !s.cachingLocally
    ensures GetResult(s).active <==> s.active || s.pending[0].Select?
  {
    if s.pending[0].Select? {
      GetSelectRead(s);
      hide AddResultSet, Construct, GetResult;
    }
  }

  lemma AdvancedActive(s: State)
    requires s.cmdInformation.Some?
    ensures Advance(s).0.haveResultInWire ==> Advance(s).0.active == s.active
    ensures Advance(s).0.pending == s.pending
  {
  }

  lemma SeenNext(stream: seq<Entry>, c: nat)
    requires c + 1 < |stream|
    ensures SelectSeen(stream, c + 1) <==> SelectSeen(stream, c) || stream[c + 1].Select?
  {
  }

  lemma PulledActive(s: State, close: bool, stream: seq<Entry>, f: nat, c: nat)
    requires Inv(s, stream, f, c) && ActiveOk(s, stream, c) && s.haveResultInWire && |s.pending| > 1
    requires s.cmdInformation.Some?
    ensures var t := MoveOn(s, close).0;
      t.haveResultInWire ==> (t.active <==> SelectSeen(stream, c + 1))
  {
    var s1 := Settle(s, Present(s), close);
    SettledActive(s, Present(s), close);
    assert s1.pending == s.pending == stream[c + 1..] && s1.haveResultInWire && !s1.cachingLocally
      && s1.cmdInformation.Some? by { hide Settle; }
    assert s.pending[0] == stream[c + 1] && (s.pending[0].Select? ==> !s.pending[0].callable);
    SeenNext(stream, c);
    hide Settle, SelectSeen, Inv;
    var m := Move(s1);
    assert m == s1.(unsafeMoves := m.unsafeMoves) by { hide AllRead; }
    hide Move;
    GotActive(m);
    hide GetResult;
    AdvancedActive(GetResult(m));
    hide Advance;
  }

  lemma ActiveStep(s: State, op: Op, stream: seq<Entry>, f: nat, c: nat) returns (d: nat)
    requires Inv(s, stream, f, c) && ActiveOk(s, stream, c)
    ensures s.cmdInformation.Some? && Inv(Apply(s, op).0, stream, f, d) && OneStep(stream, c, d, Apply(s, op).1)
    ensures Stops(Apply(s, op).1) || ActiveOk(Apply(s, op).0, stream, d)
  {
    assert s.cmdInformation.Some?;
    d := StepInv(s, op, stream, f, c);
    if op.GetMore? {
      ActiveGetMore(s, op.close, stream, f, c);
      hide GetMoreResults, Inv, ActiveOk;
    } else if op.LoadAll? {
      assert !LoadFully(s, false).haveResultInWire by { LoadAnnouncesNothing(s); }
      hide LoadFully, Inv, SelectSeen;
    } else {
      if s.pending != [] && (op.AppClose? || op.AppRead?) { TouchedActive(s, op.id); }
      hide CloseRows, ReadThrough, Inv, SelectSeen;
    }
  }

  lemma LoadAnnouncesNothing(s: State)
    ensures !LoadFully(s, false).haveResultInWire
  {
    hide Settle, Drain;
  }

  lemma ActiveGetMore(s: State, close: bool, stream: seq<Entry>, f: nat, c: nat)
    requires Inv(s, stream, f, c) && ActiveOk(s, stream, c)
    ensures s.cmdInformation.Some?
    ensures var (t, o) := GetMoreResults(s, close); Final(o) || ActiveOk(t, stream, c + 1)
  {
    assert s.cmdInformation.Some?;
    StepGetMore(s, close, stream, f, c);
    if !Blocks(s, close) && s.haveResultInWire && |s.pending| > 1 {
      PulledActive(s, close, stream, f, c);
      hide MoveOn, Inv, SelectSeen;
    } else {
      hide GetMoreResults, Inv, SelectSeen;
    }
  }

  ghost predicate EndsActive(s: State, script: seq<Op>, stream: seq<Entry>, c: nat)
    requires s.cmdInformation.Some?
  {
    var (t, answers) := Run(s, script);
    Stops(answers) || ActiveOk(t, stream, c + Position(answers))
  }

  lemma {:induction false} ActiveRun(s: State, script: seq<Op>, stream: seq<Entry>, f: nat, c: nat)
    requires Inv(s, stream, f, c) && ActiveOk(s, stream, c) && s.cmdInformation.Some?
    ensures EndsActive(s, script, stream, c)
    decreases |script|
  {
    hide *;
    if script == [] {
      EndsNow(s, stream, c);
    } else {
      var d := ActiveStep(s, script[0], stream, f, c);
      if !Stops(Apply(s, script[0]).1) {
        ActiveRun(Apply(s, script[0]).0, script[1..], stream, f, d);
      }
      EndsLater(s, script, stream, c, d);
    }
  }

  lemma EndsNow(s: State, stream: seq<Entry>, c: nat)
    requires s.cmdInformation.Some? && ActiveOk(s, stream, c)
    ensures EndsActive(s, [], stream, c)
  {
    RunEmpty(s, stream, c);
    hide Run;
  }

  lemma EndsLater(s: State, script: seq<Op>, stream: seq<Entry>, c: nat, d: nat)
    requires s.cmdInformation.Some? && script != [] && OneStep(stream, c, d, Apply(s, script[0]).1)
    requires Stops(Apply(s, script[0]).1) || EndsActive(Apply(s, script[0]).0, script[1..], stream, d)
    ensures EndsActive(s, script, stream, c)
  {
    RunCons(s, script);
    var (t, now) := Apply(s, script[0]);
    if !Stops(now) { PositionJoin(stream, c, d, now, Run(t, script[1..]).1); }
    hide Run, Apply, ActiveOk, Position, Stops;
  }

  lemma PositionJoin(stream: seq<Entry>, c: nat, d: nat, now: seq<Outcome>, later: seq<Outcome>)
    requires OneStep(stream, c, d, now) && !Stops(now)
    ensures c + Position(now + later) == d + Position(later)
    ensures Stops(now + later) <==> Stops(later)
  {
    if now == [] {
      assert now + later == later;
    } else {
      assert (now + later)[0] == now[0] && (now + later)[1..] == later;
    }
  }

  /** In every run over every stream, while responses are announced and pending, this is the
      protocol's active result exactly when a result set has been read. */
  lemma ActiveIff(stream: seq<Entry>, f: nat, binary: bool, script: seq<Op>)
    requires stream != [] && NoCallable(stream)
    ensures Start(stream, f, binary).cmdInformation.Some?
    ensures var (t, answers) := Run(Start(stream, f, binary), script);
      !Stops(answers) && t.haveResultInWire && t.pending != [] ==> (t.active <==> SelectSeen(stream, Position(answers)))
  {
    StartInv(stream, f, binary);
    StartActive(stream, f, binary);
    hide Start, Run, Inv, SelectSeen, Position;
    ActiveRun(Start(stream, f, binary), script, stream, f, 0);
  }

  lemma StartActive(stream: seq<Entry>, f: nat, binary: bool)
    requires stream != [] && NoCallable(stream)
    ensures ActiveOk(Start(stream, f, binary), stream, 0)
  {
    var s := Fresh(stream, f, false, binary);
    if |stream| > 1 {
      GotActive(s);
      hide GetResult;
    } else {
      assert stream[1..] == [];
      hide GetResult;
    }
  }

  /** A statement whose first response is an update count, with more behind it: it is not the
      active result, so the next statement on the connection does not drain it. */
  lemma UpdateFirstInactive(stream: seq<Entry>, f: nat, binary: bool)
    requires |stream| > 1 && NoCallable(stream) && stream[0].Update?
    ensures var s := Start(stream, f, binary); s.haveResultInWire && s.pending != [] && !s.active
  {
    StartInv(stream, f, binary);
    StartActive(stream, f, binary);
    hide Start;
  }
}
