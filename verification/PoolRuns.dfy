/** Properties of every run of the pool: exclusive use of sessions, single return, closing for
    good, safe destruction, and what the next owner of a session inherits. */
module PoolRuns {
  import opened Strings
  import opened Session
  import opened Pool

  lemma DoKeeps(w: World, step: Step)
    requires Inv(w) && Enabled(w, step)
    ensures Inv(Do(w, step))
  {
    match step
    case Add => AddKeeps(w);
    case Open => AddKeeps(w);
    case Checkout => TakeKeeps(w);
    case Drop(k) => DropKeeps(w, k);
    case ClosePool => OpenKeeps(w);
    case Set(h, call) => SetKeeps(w, h, call);
    case Transact(h, on) =>
      HeldReturnable(w, h);
      var p := w.handles[h].protocol.value;
      SessionKeeps(w, p, w.sessions[p].(inTransaction := on, reported := w.sessions[p].now.autoCommit));
    case Lose(p) => SessionKeeps(w, p, w.sessions[p].(connected := false));
    case BeginClose(h, fails, replies) => CloseKeeps(w, h, fails, replies);
    case EndClose(h) => EndsKeep(w, h);
    case BeginDestroy(h, replies) => DestroyKeeps(w, h, replies);
    case EndDestroy(h) => EndsKeep(w, h);
  }

  lemma OpenKeeps(w: World)
    requires Inv(w)
    ensures Inv(w.(open := false))
  {
    var t := w.(open := false);
    forall h | 0 <= h < |t.handles| ensures HandleOk(t, h) { assert HandleOk(w, h); }
    forall k | 0 <= k < |t.idle| ensures IdleOk(t, t.idle[k]) { assert IdleOk(w, w.idle[k]); }
  }

  /** A run; a step that is not enabled where it stands does nothing. */
  function Run(w: World, steps: seq<Step>): World
    requires Inv(w)
    decreases |steps|
  {
    if steps == [] then w
    else if Enabled(w, steps[0]) then DoKeeps(w, steps[0]); Run(Do(w, steps[0]), steps[1..])
    else Run(w, steps[1..])
  }

  lemma {:induction false} RunKeeps(w: World, steps: seq<Step>)
    requires Inv(w)
    ensures Inv(Run(w, steps))
    decreases |steps|
  {
    hide Enabled, Inv, Do;
    if steps != [] {
      if Enabled(w, steps[0]) {
        DoKeeps(w, steps[0]);
        RunKeeps(Do(w, steps[0]), steps[1..]);
      } else {
        RunKeeps(w, steps[1..]);
      }
    }
  }

  // ---------- exclusive use ----------

  /** In every run, at every moment, at most one handle that is in use or resting in the pool
      refers to a given session; only handles inside `close()` or a destructor may share it. */
  lemma Exclusive(config: Config, steps: seq<Step>, g: nat, h: nat, p: nat)
    ensures Inv(Empty(config))
    ensures var w := Run(Empty(config), steps); Owns(w, g, p) && Owns(w, h, p) ==> g == h
  {
    RunKeeps(Empty(config), steps);
    var w := Run(Empty(config), steps);
    hide Run;
    if g < h < |w.handles| { assert !Share(w.handles[g], w.handles[h]); }
    if h < g < |w.handles| { assert !Share(w.handles[h], w.handles[g]); }
  }

  /** In every run the pool connection of a handle in use or idle points back to it, and each idle
      connection is idle once. */
  lemma PointsBack(config: Config, steps: seq<Step>, h: nat, i: nat)
    ensures Inv(Empty(config))
    ensures var w := Run(Empty(config), steps);
      h < |w.handles| && w.handles[h].phase.Live? && w.handles[h].poolConnection == Some(i) ==>
        i < |w.items| && w.items[i] == Some(h)
    ensures var w := Run(Empty(config), steps);
      i in w.idle ==>
        && i < |w.items| && w.items[i].Some? && w.items[i].value < |w.handles|
        && w.handles[w.items[i].value].poolConnection == Some(i) && w.handles[w.items[i].value].inPool
    ensures var w := Run(Empty(config), steps);
      forall j, k :: 0 <= j < k < |w.idle| ==> w.idle[j] != w.idle[k]
  {
    RunKeeps(Empty(config), steps);
    var w := Run(Empty(config), steps);
    hide Run;
    if h < |w.handles| { assert HandleOk(w, h); }
    if i in w.idle {
      var k :| 0 <= k < |w.idle| && w.idle[k] == i;
      assert IdleOk(w, w.idle[k]);
    }
  }

  /** In every run each handle is returned to the pool at most once, over any mix of repeated
      `close()` and destruction; and a handle that was not closed was not returned. */
  lemma ReturnedOnce(config: Config, steps: seq<Step>, h: nat)
    ensures Inv(Empty(config))
    ensures var w := Run(Empty(config), steps);
      h < |w.handles| ==>
        && w.handles[h].timesReturned <= 1
        && (w.handles[h].phase.Live? && !w.handles[h].returnedToPool ==> w.handles[h].timesReturned == 0)
  {
    RunKeeps(Empty(config), steps);
    var w := Run(Empty(config), steps);
    hide Run;
    if h < |w.handles| { assert HandleOk(w, h); }
  }

  /** The destructor's three branches: when it returns the handle its pool connection is there
      and points back; when it disconnects a session there is one; a closed handle does neither. */
  lemma DestructorSafe(w: World, h: nat)
    requires Inv(w) && Held(w, h)
    ensures var x := w.handles[h];
      if x.poolConnection.None? && !x.returnedToPool then x.protocol.Some? && x.protocol.value < |w.sessions|
      else if !IsClosed(w, h) then x.poolConnection.Some? && Returnable(w, h)
      else true
    ensures w.handles[h].returnedToPool ==> IsClosed(w, h)
  {
    HeldReturnable(w, h);
  }

  // ---------- closed for good ----------

  /** Gone: closed through the pool, whether or not it is being destroyed by now. */
  predicate Returned(w: World, h: nat) {
    h < |w.handles| && w.handles[h].returnedToPool
  }

  lemma ReturnedStays(w: World, step: Step, h: nat)
    requires Inv(w) && Enabled(w, step) && Returned(w, h)
    ensures Returned(Do(w, step), h)
  {
    assert HandleOk(w, h);
    match step
    case Checkout => TakeKeeps(w);
    case Drop(k) => DropKeeps(w, k);
    case Set(g, call) => HeldReturnable(w, g); hide ApplyCall;
    case Transact(g, on) => HeldReturnable(w, g);
    case BeginClose(g, fails, replies) => CloseOthers(w, g, fails, replies, h);
    case BeginDestroy(g, replies) => DestroyOthers(w, g, replies, h);
    case _ =>
  }

  lemma CloseOthers(w: World, g: nat, fails: bool, replies: ResetReplies, h: nat)
    requires Inv(w) && Held(w, g) && Returned(w, h)
    ensures HandleOk(w, g) && (w.handles[g].poolConnection.Some? ==> Returnable(w, g))
    ensures Returned(CloseBegin(w, g, fails, replies), h)
  {
    HeldReturnable(w, g);
    hide Reset, Inv, Held;
  }

  lemma DestroyOthers(w: World, g: nat, replies: ResetReplies, h: nat)
    requires Inv(w) && Held(w, g) && Returned(w, h)
    ensures HandleOk(w, g) && (w.handles[g].poolConnection.Some? ==> Returnable(w, g))
    ensures Returned(DestroyBegin(w, g, replies), h)
  {
    HeldReturnable(w, g);
    hide Reset, Inv, Held;
  }

  /** Once returned, a handle reports closed forever, whatever the next owners of its session do. */
  lemma {:induction false} ClosedForever(w: World, steps: seq<Step>, h: nat)
    requires Inv(w) && Returned(w, h)
    ensures Returned(Run(w, steps), h) && IsClosed(Run(w, steps), h)
    decreases |steps|
  {
    hide Enabled, Inv, Do;
    if steps != [] {
      if Enabled(w, steps[0]) {
        DoKeeps(w, steps[0]);
        ReturnedStays(w, steps[0], h);
        ClosedForever(Do(w, steps[0]), steps[1..], h);
      } else {
        ClosedForever(w, steps[1..], h);
      }
    }
  }

  // ---------- what the next owner inherits ----------

  /** `close()` of a pooled handle has put its session back among the idle. */
  predicate HandedBack(w: World, h: nat, t: World) {
    && h < |w.handles| && w.handles[h].poolConnection.Some?
    && t.idle == w.idle + [w.handles[h].poolConnection.value]
  }

  /** What the listener's reset leaves at its default, on a session with these settings. */
  predicate HandedOver(now: Settings, c: Config, x: Setting) {
    match x
    case AutoCommit => if c.useComReset then c.globalAutoCommit == c.defaults.autoCommit else AtDefault(now, c.defaults, x)
    case Isolation => if c.useComReset then c.globalIsolation == c.defaults.isolation else AtDefault(now, c.defaults, x)
    case _ => AtDefault(now, c.defaults, x)
  }

  /** The session rests under a fresh handle with every bit clear, without a transaction. Its
      settings are at their defaults, as the clear bits claim, exactly when the previous owner had
      left them so; under COM_RESET_CONNECTION auto-commit and the isolation level are instead
      right exactly when the server's global values are the defaults. The dirty bits were on the
      closed handle; the reset runs on the fresh one. */
  lemma HandoverIff(w: World, h: nat, fails: bool, replies: ResetReplies)
    requires Inv(w) && Held(w, h) && w.handles[h].protocol.Some?
    requires HandleOk(w, h) && (w.handles[h].poolConnection.Some? ==> Returnable(w, h))
    requires HandedBack(w, h, CloseBegin(w, h, fails, replies))
    ensures var t, g, p := CloseBegin(w, h, fails, replies), |w.handles|, w.handles[h].protocol.value;
      && |t.handles| == g + 1 && t.handles[g] == NewHandle(p, w.handles[h].poolConnection, true)
      && p < |t.sessions| && !t.sessions[p].inTransaction
      && (Sound(SessionState(t.handles[g].stateFlag, t.sessions[p].now, t.sessions[p].reported), w.config.defaults)
          <==> forall x: Setting :: HandedOver(w.sessions[p].now, w.config, x))
  {
    HeldReturnable(w, h);
    var t, p := CloseBegin(w, h, fails, replies), w.handles[h].protocol.value;
    var x := RolledBack(w.sessions[p]);
    var (s, ok) := Reset(SessionState({}, x.now, x.reported), w.config, LinkOf(x), replies);
    CleanReset(x.now, x.reported, w.config, LinkOf(x), replies);
    hide Reset;
    assert |t.idle| == |w.idle| + 1;
    assert ok && t.sessions[p].now == s.now;
    hide CloseBegin;
    forall y: Setting
      ensures AtDefault(s.now, w.config.defaults, y) <==> HandedOver(w.sessions[p].now, w.config, y)
    {
    }
  }

  /** On clear bits `reset` does nothing but COM_RESET_CONNECTION. */
  lemma CleanReset(now: Settings, reported: bool, c: Config, link: Link, r: ResetReplies)
    ensures var (t, ok) := Reset(SessionState({}, now, reported), c, link, r);
      && ok == (!c.useComReset || r.com.Done?) && (ok ==> t.reported == reported)
      && (ok ==> t.now == if c.useComReset then now.(isolation := c.globalIsolation, autoCommit := c.globalAutoCommit)
                          else now)
  {
  }

  /** In an open pool a close whose rollback does not fail hands the session back, unless
      COM_RESET_CONNECTION fails. */
  lemma CloseHandsBack(w: World, h: nat, fails: bool, replies: ResetReplies)
    requires Inv(w) && Held(w, h) && w.open && w.handles[h].protocol.Some? && w.handles[h].poolConnection.Some?
    requires HandleOk(w, h) && !(w.sessions[w.handles[h].protocol.value].inTransaction && fails)
    requires !w.config.useComReset || replies.com.Done?
    ensures Returnable(w, h) && HandedBack(w, h, CloseBegin(w, h, fails, replies))
  {
    HeldReturnable(w, h);
    var x := RolledBack(w.sessions[w.handles[h].protocol.value]);
    CleanReset(x.now, x.reported, w.config, LinkOf(x), replies);
    hide Reset;
  }

  /** Without COM_RESET_CONNECTION, a pooled owner that turns auto-commit away from its default and
      closes properly passes it on: the fresh handle's clear bit is wrong. */
  lemma AutoCommitLeaks(w: World, h: nat, replies: ResetReplies)
    requires Inv(w) && Held(w, h) && w.open && !w.config.useComReset
    requires HandleOk(w, h) && w.handles[h].protocol.Some? && w.handles[h].poolConnection.Some? && !IsClosed(w, h)
    requires !w.sessions[w.handles[h].protocol.value].explicitClosed
    requires w.sessions[w.handles[h].protocol.value].reported == w.config.defaults.autoCommit
    ensures var u := SetOn(w, h, CallAutoCommit(!w.config.defaults.autoCommit, Done));
      && Inv(u) && Held(u, h) && HandleOk(u, h) && Returnable(u, h)
      && HandedBack(u, h, CloseBegin(u, h, false, replies))
      && var t, g, p := CloseBegin(u, h, false, replies), |u.handles|, u.handles[h].protocol.value;
         && g < |t.handles| && p < |t.sessions| && t.handles[g].protocol == Some(p)
         && AutoCommit !in t.handles[g].stateFlag
         && t.sessions[p].now.autoCommit != w.config.defaults.autoCommit
  {
    var call := CallAutoCommit(!w.config.defaults.autoCommit, Done);
    SetKeeps(w, h, call);
    var u := SetOn(w, h, call);
    HeldReturnable(u, h);
    CloseHandsBack(u, h, false, replies);
    HandoverIff(u, h, false, replies);
    var p := w.handles[h].protocol.value;
    var x := RolledBack(u.sessions[p]);
    CleanReset(x.now, x.reported, u.config, LinkOf(x), replies);
    hide Reset;
  }

  /** With COM_RESET_CONNECTION it is not the previous owner's mode that is passed on, but the
      server's global one, which the `autocommit` option need not equal; and the next owner's
      driver goes by the previous owner's. */
  lemma AutoCommitUnderComReset(w: World, h: nat, replies: ResetReplies)
    requires Inv(w) && Held(w, h) && w.open && w.config.useComReset && replies.com.Done?
    requires HandleOk(w, h) && w.handles[h].protocol.Some? && w.handles[h].poolConnection.Some?
    ensures Returnable(w, h) && HandedBack(w, h, CloseBegin(w, h, false, replies))
    ensures var t, g, p := CloseBegin(w, h, false, replies), |w.handles|, w.handles[h].protocol.value;
      && g < |t.handles| && p < |t.sessions| && t.handles[g].protocol == Some(p)
      && t.sessions[p].now.autoCommit == w.config.globalAutoCommit
      && t.sessions[p].reported == RolledBack(w.sessions[p]).reported
  {
    HeldReturnable(w, h);
    CloseHandsBack(w, h, false, replies);
    HandoverIff(w, h, false, replies);
    var x := RolledBack(w.sessions[w.handles[h].protocol.value]);
    CleanReset(x.now, x.reported, w.config, LinkOf(x), replies);
    hide Reset;
  }

  /** Destroying a pooled handle without closing it hands its transaction on as well, unless
      COM_RESET_CONNECTION ends it. */
  lemma DestroyKeepsTransaction(w: World, h: nat, replies: ResetReplies)
    requires Inv(w) && Held(w, h) && w.open && !IsClosed(w, h)
    requires HandleOk(w, h) && w.handles[h].poolConnection.Some? && Returnable(w, h)
    requires !w.config.useComReset || replies.com.Done?
    ensures var t, p := DestroyBegin(w, h, replies), w.handles[h].protocol.value;
      && HandedBack(w, h, t) && p < |t.sessions|
      && t.sessions[p].inTransaction == (w.sessions[p].inTransaction && !w.config.useComReset)
  {
    HeldReturnable(w, h);
    var p := w.handles[h].protocol.value;
    CleanReset(w.sessions[p].now, w.sessions[p].reported, w.config, LinkOf(w.sessions[p]), replies);
    hide Reset;
  }
}
