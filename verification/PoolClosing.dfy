/** What closing, destroying and checking out do to sessions, over every run of the pool
    (src/MariaDbConnection.cpp:98-109 and 806-839, src/pool/Pool.cpp:259-300 and 655-700). */
module PoolClosing {
  import opened Strings
  import opened Session
  import opened Pool
  import opened PoolRuns

  // ---------- what leaving changes ----------

  /** Of the handles only pool connections, and for `g` the phase and the count, may differ, and
      of the sessions only that of handle `g`. */
  ghost predicate LeavingFrame(w: World, t: World, g: nat)
    requires g < |w.handles|
  {
    && |t.handles| >= |w.handles| && |t.sessions| == |w.sessions|
    && (forall h :: 0 <= h < |w.handles| ==>
          && t.handles[h].protocol == w.handles[h].protocol && t.handles[h].inPool == w.handles[h].inPool
          && t.handles[h].returnedToPool == w.handles[h].returnedToPool
          && (h != g ==> t.handles[h].phase == w.handles[h].phase))
    && (forall q :: 0 <= q < |w.sessions| && w.handles[g].protocol != Some(q) ==> t.sessions[q] == w.sessions[q])
    && (forall q :: 0 <= q < |w.sessions| && !w.sessions[q].connected ==> !t.sessions[q].connected)
  }

  lemma ListenerFrame(w: World, i: nat, replies: ResetReplies)
    requires i < |w.items| && w.items[i].Some? && w.items[i].value < |w.handles|
    requires w.handles[w.items[i].value].protocol.Some?
    requires w.handles[w.items[i].value].protocol.value < |w.sessions|
    ensures var t, g := ConnectionClosed(w, i, replies), w.items[i].value;
      LeavingFrame(w, t, g) && t.handles[g].phase == w.handles[g].phase
  {
    hide Reset;
  }

  lemma FrameAfter(w: World, v: World, t: World, g: nat)
    requires g < |w.handles| && LeavingFrame(w, v, g) && LeavingFrame(v, t, g)
    ensures LeavingFrame(w, t, g)
  {
  }

  lemma MarkFrame(w: World, g: nat, x: Handle, y: Physical)
    requires g < |w.handles| && w.handles[g].protocol.Some? && w.handles[g].protocol.value < |w.sessions|
    requires x.protocol == w.handles[g].protocol && x.inPool == w.handles[g].inPool
    requires x.returnedToPool == w.handles[g].returnedToPool
    requires y.connected ==> w.sessions[w.handles[g].protocol.value].connected
    ensures LeavingFrame(w, SetHandle(SetSession(w, w.handles[g].protocol.value, y), g, x), g)
  {
  }

  lemma CloseFrame(w: World, g: nat, fails: bool, replies: ResetReplies)
    requires Inv(w) && Held(w, g)
    ensures HandleOk(w, g) && (w.handles[g].poolConnection.Some? ==> Returnable(w, g))
    ensures LeavingFrame(w, CloseBegin(w, g, fails, replies), g)
  {
    HeldReturnable(w, g);
    var x := w.handles[g];
    hide Inv;
    if x.poolConnection.Some? {
      var p := x.protocol.value;
      var y := RolledBack(w.sessions[p]).(explicitClosed := true);
      var z := x.(phase := Closing, timesReturned := x.timesReturned + 1);
      var v := SetHandle(SetSession(w, p, y), g, z);
      assert SetHandle(SetHandle(SetSession(w, p, y), g, x.(phase := Closing)), g, z) == v;
      MarkFrame(w, g, z, y);
      ListenerFrame(v, x.poolConnection.value, replies);
      hide LeavingFrame, ConnectionClosed;
      FrameAfter(w, v, ConnectionClosed(v, x.poolConnection.value, replies), g);
      SameFrame(w, g);
    }
  }

  lemma SameFrame(w: World, g: nat)
    requires g < |w.handles|
    ensures LeavingFrame(w, w, g)
  {
  }

  lemma DestroyFrame(w: World, g: nat, replies: ResetReplies)
    requires Inv(w) && Held(w, g)
    ensures HandleOk(w, g) && (w.handles[g].poolConnection.Some? ==> Returnable(w, g))
    ensures w.handles[g].returnedToPool ==> IsClosed(w, g)
    ensures LeavingFrame(w, DestroyBegin(w, g, replies), g)
  {
    HeldReturnable(w, g);
    var x := w.handles[g];
    hide Inv;
    if x.poolConnection.Some? && !IsClosed(w, g) {
      var p := x.protocol.value;
      var z := x.(phase := Dying, timesReturned := x.timesReturned + 1);
      var v := SetHandle(w, g, z);
      assert SetHandle(SetHandle(w, g, x.(phase := Dying)), g, z) == v;
      MarkFrame(w, g, z, w.sessions[p]);
      assert SetSession(w, p, w.sessions[p]) == w;
      ListenerFrame(v, x.poolConnection.value, replies);
      hide LeavingFrame, ConnectionClosed;
      FrameAfter(w, v, ConnectionClosed(v, x.poolConnection.value, replies), g);
    }
  }

  // ---------- closed stays closed ----------

  /** The session a step works on. */
  function SessionOf(w: World, step: Step): Option<nat>
    requires Inv(w) && Enabled(w, step)
  {
    match step
    case Add => None
    case Open => None
    case ClosePool => None
    case EndClose(_) => None
    case EndDestroy(_) => None
    case Lose(p) => Some(p)
    case Checkout => TakeKeeps(w); w.handles[w.items[w.idle[0]].value].protocol
    case Drop(k) => DropKeeps(w, k); w.handles[w.items[w.idle[k]].value].protocol
    case Set(h, _) => w.handles[h].protocol
    case Transact(h, _) => w.handles[h].protocol
    case BeginClose(h, _, _) => w.handles[h].protocol
    case BeginDestroy(h, _) => w.handles[h].protocol
  }

  /** A step changes no session but its own: what one owner does never reaches another's. */
  lemma OtherSessionsKept(w: World, step: Step, q: nat)
    requires Inv(w) && Enabled(w, step) && q < |w.sessions| && SessionOf(w, step) != Some(q)
    ensures q < |Do(w, step).sessions| && Do(w, step).sessions[q] == w.sessions[q]
  {
    match step
    case Checkout => TakeKeeps(w);
    case Drop(k) => DropKeeps(w, k);
    case Set(h, call) => HeldReturnable(w, h); hide ApplyCall;
    case Transact(h, on) => HeldReturnable(w, h);
    case BeginClose(h, fails, replies) => CloseFrame(w, h, fails, replies); hide CloseBegin, Inv;
    case BeginDestroy(h, replies) => DestroyFrame(w, h, replies); hide DestroyBegin, Inv;
    case _ =>
  }

  /** No step connects a session again. */
  lemma SeveredStays(w: World, step: Step, p: nat)
    requires Inv(w) && Enabled(w, step) && p < |w.sessions| && !w.sessions[p].connected
    ensures p < |Do(w, step).sessions| && !Do(w, step).sessions[p].connected
  {
    if SessionOf(w, step) != Some(p) {
      OtherSessionsKept(w, step, p);
    } else {
      match step
      case Checkout => TakeKeeps(w);
      case Drop(k) => DropKeeps(w, k);
      case Set(h, call) => HeldReturnable(w, h); hide ApplyCall;
      case Transact(h, on) => HeldReturnable(w, h);
      case BeginClose(h, fails, replies) => CloseFrame(w, h, fails, replies); hide CloseBegin, Inv;
      case BeginDestroy(h, replies) => DestroyFrame(w, h, replies); hide DestroyBegin, Inv;
      case _ =>
    }
  }

  /** A handle keeps its session until it lets go of it for good. */
  lemma ProtocolStays(w: World, step: Step, h: nat)
    requires Inv(w) && Enabled(w, step) && h < |w.handles|
    ensures var t := Do(w, step);
      h < |t.handles| && (t.handles[h].protocol == w.handles[h].protocol || step == EndClose(h))
  {
    match step
    case Checkout => TakeKeeps(w);
    case Drop(k) => DropKeeps(w, k);
    case Set(g, call) => HeldReturnable(w, g); hide ApplyCall;
    case Transact(g, on) => HeldReturnable(w, g);
    case BeginClose(g, fails, replies) => CloseFrame(w, g, fails, replies); hide CloseBegin, Inv;
    case BeginDestroy(g, replies) => DestroyFrame(w, g, replies); hide DestroyBegin, Inv;
    case _ =>
  }

  /** A closed handle stays closed, pooled or direct, closed by its owner or lost. */
  lemma ClosedStays(w: World, step: Step, h: nat)
    requires Inv(w) && Enabled(w, step) && h < |w.handles| && IsClosed(w, h)
    ensures h < |Do(w, step).handles| && IsClosed(Do(w, step), h)
  {
    assert HandleOk(w, h);
    ProtocolStays(w, step, h);
    if w.handles[h].returnedToPool {
      ReturnedStays(w, step, h);
      hide Do, Inv;
    } else {
      SeveredStays(w, step, w.handles[h].protocol.value);
      if step == EndClose(h) { hide Inv; } else { hide Do, Inv; }
    }
  }

  lemma {:induction false} ClosedForGood(w: World, steps: seq<Step>, h: nat)
    requires Inv(w) && h < |w.handles| && IsClosed(w, h)
    ensures h < |Run(w, steps).handles| && IsClosed(Run(w, steps), h)
    decreases |steps|
  {
    hide Enabled, Inv, Do, IsClosed;
    if steps != [] {
      if Enabled(w, steps[0]) {
        DoKeeps(w, steps[0]);
        ClosedStays(w, steps[0], h);
        ClosedForGood(Do(w, steps[0]), steps[1..], h);
      } else {
        ClosedForGood(w, steps[1..], h);
      }
    }
  }

  // ---------- close() ----------

  /** The rollback at the head of `close()` of a pooled handle fails. */
  predicate RollbackFails(w: World, h: nat, fails: bool)
    requires h < |w.handles|
  {
    && fails && w.handles[h].poolConnection.Some? && w.handles[h].protocol.Some?
    && w.handles[h].protocol.value < |w.sessions| && w.sessions[w.handles[h].protocol.value].inTransaction
  }

  /** What the listener asks of the session's reset: nothing, or COM_RESET_CONNECTION. */
  predicate ResetOk(w: World, replies: ResetReplies) {
    !w.config.useComReset || replies.com.Done?
  }

  /** The effect of `close()` on the session, in every case but a failing rollback: it is marked
      as closed; and it stays connected exactly when it was, its handle came from a pool that is
      open, and the fresh handle's reset succeeded. */
  lemma CloseOnSession(w: World, h: nat, fails: bool, replies: ResetReplies)
    requires Inv(w) && Held(w, h) && w.handles[h].protocol.Some? && !RollbackFails(w, h, fails)
    ensures HandleOk(w, h)
    ensures var t, p, x := Do(w, BeginClose(h, fails, replies)), w.handles[h].protocol.value, w.handles[h];
      && p < |t.sessions| && t.sessions[p].explicitClosed
      && (t.sessions[p].connected <==>
            w.sessions[p].connected && x.poolConnection.Some? && w.open && ResetOk(w, replies))
  {
    HeldReturnable(w, h);
    var x := RolledBack(w.sessions[w.handles[h].protocol.value]);
    CleanReset(x.now, x.reported, w.config, LinkOf(x.(explicitClosed := true)), replies);
    hide Reset, Inv;
  }

  lemma FailedRollbackChangesNothing(w: World, h: nat, fails: bool, replies: ResetReplies)
    requires Inv(w) && Held(w, h) && RollbackFails(w, h, fails)
    ensures Do(w, BeginClose(h, fails, replies)) == w
  {
    HeldReturnable(w, h);
  }

  /** Once `close()` has finished without a failing rollback the handle reports closed: at once
      when it was direct or closed before, and when it lets go of its session if it was pooled. */
  lemma CloseCloses(w: World, h: nat, fails: bool, replies: ResetReplies)
    requires Inv(w) && Held(w, h) && !RollbackFails(w, h, fails)
    ensures var t := Do(w, BeginClose(h, fails, replies));
      && h < |t.handles|
      && (w.handles[h].poolConnection.None? ==> IsClosed(t, h))
      && (w.handles[h].poolConnection.Some? ==> Enabled(t, EndClose(h)))
  {
    HeldReturnable(w, h);
    assert HandleOk(w, h);
    hide Reset, Inv;
  }

  /** Until then the second half of `close()` remains to be done, whatever else happens. */
  lemma ClosingStays(w: World, step: Step, h: nat)
    requires Inv(w) && Enabled(w, step) && Enabled(w, EndClose(h)) && step != EndClose(h)
    ensures Enabled(Do(w, step), EndClose(h))
  {
    match step
    case Checkout => TakeKeeps(w);
    case Drop(k) => DropKeeps(w, k);
    case Set(g, call) => HeldReturnable(w, g); hide ApplyCall;
    case Transact(g, on) => HeldReturnable(w, g);
    case BeginClose(g, fails, replies) => CloseFrame(w, g, fails, replies); hide CloseBegin, Inv;
    case BeginDestroy(g, replies) => DestroyFrame(w, g, replies); hide DestroyBegin, Inv;
    case _ =>
  }

  lemma EndCloses(w: World, h: nat)
    requires Inv(w) && Enabled(w, EndClose(h))
    ensures h < |Do(w, EndClose(h)).handles| && IsClosed(Do(w, EndClose(h)), h)
  {
  }

  /** Over runs: from the end of a `close()` on, the handle is closed in every later state. A
      pooled one ends with `EndClose`, any other with the first half. */
  lemma CloseClosesForGood(w: World, h: nat, fails: bool, replies: ResetReplies, between: seq<Step>, later: seq<Step>)
    requires Inv(w) && Held(w, h) && !RollbackFails(w, h, fails)
    ensures Inv(Do(w, BeginClose(h, fails, replies)))
    ensures var t := Do(w, BeginClose(h, fails, replies));
      var u := Run(t, between);
      if w.handles[h].poolConnection.None? then h < |u.handles| && IsClosed(u, h)
      else Inv(u) && (Enabled(u, EndClose(h)) ==>
        Inv(Do(u, EndClose(h))) && h < |Run(Do(u, EndClose(h)), later).handles|
        && IsClosed(Run(Do(u, EndClose(h)), later), h))
  {
    var t := Do(w, BeginClose(h, fails, replies));
    DoKeeps(w, BeginClose(h, fails, replies));
    CloseCloses(w, h, fails, replies);
    hide Do, Inv, Enabled, IsClosed;
    if w.handles[h].poolConnection.None? {
      ClosedForGood(t, between, h);
    } else {
      RunKeeps(t, between);
      var u := Run(t, between);
      if Enabled(u, EndClose(h)) {
        DoKeeps(u, EndClose(h));
        EndCloses(u, h);
        ClosedForGood(Do(u, EndClose(h)), later, h);
      }
    }
  }

  // ---------- the destructor ----------

  /** The effect of the destructor on the session: a direct handle disconnects it and marks it as
      closed; a pooled one whose session is lost leaves it alone; any other gives it back, and the
      session stays connected exactly when the pool is open and the reset succeeds. */
  lemma DestroyOnSession(w: World, h: nat, replies: ResetReplies)
    requires Inv(w) && Held(w, h) && w.handles[h].protocol.Some?
    ensures HandleOk(w, h)
    ensures var t, p := Do(w, BeginDestroy(h, replies)), w.handles[h].protocol.value;
      && p < |t.sessions|
      && if w.handles[h].poolConnection.None? then !t.sessions[p].connected && t.sessions[p].explicitClosed
         else if !w.sessions[p].connected then t.sessions[p] == w.sessions[p]
         else
           && (t.sessions[p].connected <==> w.open && ResetOk(w, replies))
           && (!t.sessions[p].connected ==> t.sessions[p].explicitClosed)
  {
    HeldReturnable(w, h);
    var x := w.sessions[w.handles[h].protocol.value];
    CleanReset(x.now, x.reported, w.config, LinkOf(x), replies);
    hide Reset, Inv;
  }

  // ---------- checking out ----------

  /** What a checkout gives the application: the handle on top of the first idle connection, whose
      session is no longer marked as closed and is otherwise as it was. */
  lemma CheckedOut(w: World)
    requires Inv(w) && w.idle != []
    ensures IdleOk(w, w.idle[0])
    ensures var t, h := Do(w, Checkout), w.items[w.idle[0]].value;
      && HandleOk(w, h) && Held(t, h) && t.idle == w.idle[1..]
      && t.handles[h].protocol == w.handles[h].protocol && t.handles[h].protocol.Some?
      && var p := t.handles[h].protocol.value;
         p < |t.sessions| && t.sessions[p] == w.sessions[p].(explicitClosed := false)
  {
    TakeKeeps(w);
  }

  /** So the new owner's first `setAutoCommit` is accepted: it sets the bit, and the mode when the
      server answers. */
  lemma FirstSetAutoCommit(w: World, v: bool)
    requires Inv(w) && w.idle != []
    ensures IdleOk(w, w.idle[0])
    ensures var t, h := Do(w, Checkout), w.items[w.idle[0]].value;
      var call := CallAutoCommit(v, Done);
      && Inv(t) && Enabled(t, Set(h, call)) && HandleOk(t, h)
      && var u, p := Do(t, Set(h, call)), t.handles[h].protocol.value;
         p < |u.sessions| && h < |u.handles|
         && (t.sessions[p].reported != v ==> AutoCommit in u.handles[h].stateFlag && u.sessions[p].now.autoCommit == v)
  {
    CheckedOut(w);
    var t, h := Do(w, Checkout), w.items[w.idle[0]].value;
    DoKeeps(w, Checkout);
    HeldReturnable(t, h);
  }

  /** The queue of idle connections: new ones come first, returned ones last, the first is given
      out, and nothing else moves. */
  lemma IdleQueue(w: World, step: Step)
    requires Inv(w) && Enabled(w, step)
    ensures var t := Do(w, step).idle;
      match step
      case Add => t == [|w.items|] + w.idle
      case Checkout => t == w.idle[1..]
      case Drop(k) => t == w.idle[..k] + w.idle[k + 1..]
      case BeginClose(h, _, _) => t == w.idle || (w.handles[h].poolConnection.Some? && t == w.idle + [w.handles[h].poolConnection.value])
      case BeginDestroy(h, _) => t == w.idle || (w.handles[h].poolConnection.Some? && t == w.idle + [w.handles[h].poolConnection.value])
      case _ => t == w.idle
  {
    match step
    case Checkout => TakeKeeps(w);
    case Drop(k) => DropKeeps(w, k);
    case Set(h, call) => HeldReturnable(w, h); hide ApplyCall;
    case Transact(h, on) => HeldReturnable(w, h);
    case BeginClose(h, fails, replies) => HeldReturnable(w, h); hide Reset, Inv;
    case BeginDestroy(h, replies) => HeldReturnable(w, h); hide Reset, Inv;
    case _ =>
  }

  /** Getting rid of an idle connection disconnects its session and deletes handle and pool
      connection. */
  lemma DropDisconnects(w: World, k: nat)
    requires Inv(w) && k < |w.idle|
    ensures IdleOk(w, w.idle[k])
    ensures var t, i := Do(w, Drop(k)), w.idle[k];
      var h := w.items[i].value;
      && HandleOk(w, h) && w.handles[h].protocol.Some?
      && var p := w.handles[h].protocol.value;
         && p < |t.sessions| && !t.sessions[p].connected && t.sessions[p].explicitClosed
         && t.items[i] == None && t.handles[h].phase.Dead? && i !in t.idle
  {
    DropKeeps(w, k);
    assert forall j :: 0 <= j < |w.idle| && j != k ==> w.idle[j] != w.idle[k];
  }
}
