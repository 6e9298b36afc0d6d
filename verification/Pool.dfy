/** Pooled connections as a transition system: application handles (`MariaDbConnection`), pool
    connections (`MariaDbPoolConnection`), the physical sessions they share, and the pool
    (src/MariaDbConnection.cpp:98-109 and 806-839, src/MariaDbPoolConnection.cpp,
    src/pool/Pool.cpp). Steps of different handles interleave freely; closing and destroying a
    handle take two steps, since another thread may check the session out in between. */
module Pool {
  import opened Strings
  import opened Session

  /** `Closing` and `Dying` are handles inside `close()` and inside their destructor. */
  datatype Phase = Live | Closing | Dying | Dead

  /** `inPool` tells a handle that rests in the pool from one the application was given;
      `timesReturned` counts calls of `returnToPool` made for the handle. */
  datatype Handle = Handle(
    protocol: Option<nat>, poolConnection: Option<nat>, returnedToPool: bool,
    stateFlag: set<Setting>, phase: Phase, inPool: bool, timesReturned: nat)

  /** A session, with the auto-commit mode on the driver's record. */
  datatype Physical = Physical(
    connected: bool, explicitClosed: bool, inTransaction: bool, now: Settings, reported: bool)

  /** Handles, pool connections and sessions are named by their place in the tables. A pool
      connection is the handle it points to, `connection`, or deleted. */
  datatype World = World(
    handles: seq<Handle>, items: seq<Option<nat>>, sessions: seq<Physical>,
    idle: seq<nat>, open: bool, config: Config)

  function Empty(config: Config): World {
    World([], [], [], [], true, config)
  }

  // ---------- well-formed tables ----------

  predicate Refers(w: World, h: nat, p: nat) {
    h < |w.handles| && w.handles[h].protocol == Some(p)
  }

  /** A handle that is in use or rests in the pool: not returned, not on its way out. */
  predicate Owns(w: World, h: nat, p: nat) {
    Refers(w, h, p) && w.handles[h].phase.Live? && !w.handles[h].returnedToPool
  }

  function SetHandle(w: World, h: nat, x: Handle): World
    requires h < |w.handles|
  {
    w.(handles := w.handles[h := x])
  }

  function SetSession(w: World, p: nat, x: Physical): World
    requires p < |w.sessions|
  {
    w.(sessions := w.sessions[p := x])
  }

  /** `isClosed()`. */
  predicate IsClosed(w: World, h: nat)
    requires h < |w.handles|
  {
    var x := w.handles[h];
    x.protocol.None? || x.protocol.value >= |w.sessions|
    || !w.sessions[x.protocol.value].connected || x.returnedToPool
  }

  // ---------- operations ----------

  function FreshSession(c: Config): Physical {
    Physical(true, false, false, c.defaults, c.defaults.autoCommit)
  }

  function LinkOf(x: Physical): Link {
    Link(!x.connected, x.explicitClosed)
  }

  function NewHandle(p: nat, item: Option<nat>, inPool: bool): Handle {
    Handle(Some(p), item, false, {}, Live, inPool, 0)
  }

  /** `Pool::addConnection`: a session, a handle and a pool connection, put first among the idle. */
  function AddConnection(w: World): World {
    var p, h, i := |w.sessions|, |w.handles|, |w.items|;
    w.(sessions := w.sessions + [FreshSession(w.config)],
       handles := w.handles + [NewHandle(p, Some(i), true)],
       items := w.items + [Some(h)],
       idle := [i] + w.idle)
  }

  /** A connection that was opened without a pool. */
  function OpenDirect(w: World): World {
    w.(sessions := w.sessions + [FreshSession(w.config)],
       handles := w.handles + [NewHandle(|w.sessions|, None, false)])
  }

  /** `closeExplicit()` on a session. */
  function Disconnected(x: Physical): Physical {
    x.(connected := false, explicitClosed := true)
  }

  /** The connection listener, `Pool::connectionClosed`: a fresh handle is made on the session of
      the pool connection's present handle, reset, and put last among the idle. A failing reset
      and a closed pool disconnect the session instead. */
  function ConnectionClosed(w: World, i: nat, replies: ResetReplies): World
    requires i < |w.items| && w.items[i].Some? && w.items[i].value < |w.handles|
    requires w.handles[w.items[i].value].protocol.Some?
    requires w.handles[w.items[i].value].protocol.value < |w.sessions|
  {
    var h := w.items[i].value;
    var p := w.handles[h].protocol.value;
    if !w.open then
      SetSession(SetHandle(w, h, w.handles[h].(poolConnection := None)), p, Disconnected(w.sessions[p]))
    else if i in w.idle then w
    else
      var x := w.sessions[p];
      var (t, ok) := Reset(SessionState({}, x.now, x.reported), w.config, LinkOf(x), replies);
      var y := x.(now := t.now, reported := t.reported, inTransaction := x.inTransaction && !(w.config.useComReset && ok));
      if ok then
        w.(handles := w.handles + [NewHandle(p, Some(i), true)],
           items := w.items[i := Some(|w.handles|)],
           sessions := w.sessions[p := y],
           idle := w.idle + [i])
      else
        w.(handles := w.handles[h := w.handles[h].(poolConnection := None)] + [NewHandle(p, None, true)],
           items := w.items[i := Some(|w.handles|)],
           sessions := w.sessions[p := Disconnected(y)])
  }

  /** `returnToPool()`, called for handle `h`. */
  function ReturnToPool(w: World, h: nat, i: nat, replies: ResetReplies): World
    requires h < |w.handles| && i < |w.items| && w.items[i].Some? && w.items[i].value < |w.handles|
    requires w.handles[w.items[i].value].protocol.Some?
    requires w.handles[w.items[i].value].protocol.value < |w.sessions|
  {
    ConnectionClosed(SetHandle(w, h, w.handles[h].(timesReturned := w.handles[h].timesReturned + 1)), i, replies)
  }

  /** What the listener may be called on. */
  predicate Returnable(w: World, h: nat) {
    && h < |w.handles| && w.handles[h].poolConnection.Some? && w.handles[h].protocol.Some?
    && var i := w.handles[h].poolConnection.value;
       && i < |w.items| && w.items[i] == Some(h) && w.handles[h].protocol.value < |w.sessions|
  }

  /** `rollback()`: a statement, if there is a transaction. */
  function RolledBack(x: Physical): Physical {
    if x.inTransaction then x.(inTransaction := false, reported := x.now.autoCommit) else x
  }

  /** `close()`, up to the return of `returnToPool`. A failing rollback leaves everything as it is. */
  function CloseBegin(w: World, h: nat, rollbackFails: bool, replies: ResetReplies): World
    requires h < |w.handles|
    requires w.handles[h].poolConnection.Some? ==> Returnable(w, h)
    requires w.handles[h].poolConnection.None? && !w.handles[h].returnedToPool ==>
               w.handles[h].protocol.Some? && w.handles[h].protocol.value < |w.sessions|
  {
    var x := w.handles[h];
    if x.poolConnection.Some? then
      var p := x.protocol.value;
      if w.sessions[p].inTransaction && rollbackFails then w
      else
        var marked := SetSession(w, p, RolledBack(w.sessions[p]).(explicitClosed := true));
        ReturnToPool(SetHandle(marked, h, x.(phase := Closing)), h, x.poolConnection.value, replies)
    else if !x.returnedToPool then
      SetSession(w, x.protocol.value, Disconnected(w.sessions[x.protocol.value]))
    else w
  }

  /** The rest of `close()`: the handle lets go of the session. */
  function CloseEnd(w: World, h: nat): World
    requires h < |w.handles|
  {
    SetHandle(w, h, w.handles[h].(protocol := None, poolConnection := None, returnedToPool := true, phase := Live))
  }

  /** The destructor: no rollback, no mark. */
  function DestroyBegin(w: World, h: nat, replies: ResetReplies): World
    requires h < |w.handles|
    requires w.handles[h].poolConnection.Some? && !IsClosed(w, h) ==> Returnable(w, h)
    requires w.handles[h].poolConnection.None? && !w.handles[h].returnedToPool ==>
               w.handles[h].protocol.Some? && w.handles[h].protocol.value < |w.sessions|
    requires w.handles[h].returnedToPool ==> IsClosed(w, h)
  {
    var x := w.handles[h];
    var dying := SetHandle(w, h, x.(phase := Dying));
    if x.poolConnection.None? && !x.returnedToPool then
      SetSession(dying, x.protocol.value, Disconnected(w.sessions[x.protocol.value]))
    else if !IsClosed(w, h) then ReturnToPool(dying, h, x.poolConnection.value, replies)
    else dying
  }

  function DestroyEnd(w: World, h: nat): World
    requires h < |w.handles|
  {
    SetHandle(w, h, w.handles[h].(phase := Dead))
  }

  /** Getting rid of an idle connection: its session is disconnected, its handle and the pool
      connection are deleted. */
  function DropIdle(w: World, k: nat): World
    requires k < |w.idle| && w.idle[k] < |w.items| && w.items[w.idle[k]].Some?
    requires w.items[w.idle[k]].value < |w.handles|
    requires w.handles[w.items[w.idle[k]].value].protocol.Some?
    requires w.handles[w.items[w.idle[k]].value].protocol.value < |w.sessions|
  {
    var i := w.idle[k];
    var h := w.items[i].value;
    var p := w.handles[h].protocol.value;
    w.(handles := w.handles[h := w.handles[h].(poolConnection := None, phase := Dead)],
       items := w.items[i := None],
       sessions := w.sessions[p := Disconnected(w.sessions[p])],
       idle := w.idle[..k] + w.idle[k + 1..])
  }

  /** `Pool::getIdleConnection` with a connection that passed or skipped validation. */
  function TakeIdle(w: World): World
    requires w.idle != [] && w.idle[0] < |w.items| && w.items[w.idle[0]].Some?
    requires w.items[w.idle[0]].value < |w.handles|
    requires w.handles[w.items[w.idle[0]].value].protocol.Some?
    requires w.handles[w.items[w.idle[0]].value].protocol.value < |w.sessions|
  {
    var h := w.items[w.idle[0]].value;
    var p := w.handles[h].protocol.value;
    w.(handles := w.handles[h := w.handles[h].(inPool := false)],
       sessions := w.sessions[p := w.sessions[p].(explicitClosed := false)],
       idle := w.idle[1..])
  }

  // ---------- steps ----------

  datatype Step =
    | Add | Open | Checkout | Drop(k: nat) | ClosePool
    | Set(h: nat, call: Call) | Transact(h: nat, on: bool) | Lose(p: nat)
    | BeginClose(h: nat, rollbackFails: bool, replies: ResetReplies) | EndClose(h: nat)
    | BeginDestroy(h: nat, replies: ResetReplies) | EndDestroy(h: nat)

  /** A handle the application may use: it was given it and has not begun to destroy it. */
  predicate Held(w: World, h: nat) {
    h < |w.handles| && w.handles[h].phase.Live? && !w.handles[h].inPool
  }

  predicate Enabled(w: World, step: Step) {
    match step
    case Add => w.open
    case Open => true
    case Checkout => w.idle != []
    case Drop(k) => k < |w.idle|
    case ClosePool => true
    case Set(h, _) => Held(w, h) && w.handles[h].protocol.Some?
    case Transact(h, _) => Held(w, h) && w.handles[h].protocol.Some?
    case Lose(p) => p < |w.sessions|
    case BeginClose(h, _, _) => Held(w, h)
    case EndClose(h) => h < |w.handles| && w.handles[h].phase.Closing? && !w.handles[h].inPool
    case BeginDestroy(h, _) => Held(w, h)
    case EndDestroy(h) => h < |w.handles| && w.handles[h].phase.Dying? && !w.handles[h].inPool
  }

  function SetOn(w: World, h: nat, call: Call): World
    requires h < |w.handles| && w.handles[h].protocol.Some? && w.handles[h].protocol.value < |w.sessions|
  {
    var p := w.handles[h].protocol.value;
    var (t, _) := ApplyCall(SessionState(w.handles[h].stateFlag, w.sessions[p].now, w.sessions[p].reported),
                            Link(IsClosed(w, h), w.sessions[p].explicitClosed), call);
    SetSession(SetHandle(w, h, w.handles[h].(stateFlag := t.stateFlag)), p,
               w.sessions[p].(now := t.now, reported := t.reported))
  }

  // ---------- the invariant ----------

  predicate HandleOk(w: World, h: nat)
    requires h < |w.handles|
  {
    var x := w.handles[h];
    && (x.protocol.Some? ==> x.protocol.value < |w.sessions|)
    && (x.returnedToPool <==> x.protocol.None?)
    && (x.returnedToPool ==> x.poolConnection.None? && !x.inPool && !x.phase.Closing?)
    && (x.phase.Live? && x.poolConnection.Some? ==>
          x.poolConnection.value < |w.items| && w.items[x.poolConnection.value] == Some(h))
    && x.timesReturned <= 1
    && (x.phase.Live? && !x.returnedToPool ==> x.timesReturned == 0)
  }

  predicate IdleOk(w: World, i: nat) {
    && i < |w.items| && w.items[i].Some?
    && var h := w.items[i].value;
       && h < |w.handles| && w.handles[h].phase.Live? && w.handles[h].inPool
       && w.handles[h].poolConnection == Some(i) && !w.handles[h].returnedToPool
  }

  predicate Inv(w: World) {
    && (forall h :: 0 <= h < |w.handles| ==> HandleOk(w, h))
    && (forall k :: 0 <= k < |w.idle| ==> IdleOk(w, w.idle[k]))
    && (forall j, k :: 0 <= j < k < |w.idle| ==> w.idle[j] != w.idle[k])
    && (forall g, h :: 0 <= g < h < |w.handles| ==> !Share(w.handles[g], w.handles[h]))
  }

  /** Two live handles on one session. */
  predicate Share(x: Handle, y: Handle) {
    x.phase.Live? && y.phase.Live? && x.protocol.Some? && x.protocol == y.protocol
  }

  // ---------- every step keeps it ----------

  lemma AddKeeps(w: World)
    requires Inv(w)
    ensures Inv(AddConnection(w)) && Inv(OpenDirect(w))
  {
    var t := AddConnection(w);
    forall h | 0 <= h < |t.handles| ensures HandleOk(t, h) { assert h < |w.handles| ==> HandleOk(w, h); }
    forall k | 0 <= k < |t.idle| ensures IdleOk(t, t.idle[k]) { assert k > 0 ==> IdleOk(w, w.idle[k - 1]); }
    forall g, h | 0 <= g < h < |t.handles| ensures !Share(t.handles[g], t.handles[h]) { assert HandleOk(w, g); }
    forall j, k | 0 <= j < k < |t.idle| ensures t.idle[j] != t.idle[k] { assert IdleOk(w, w.idle[k - 1]); }
    var u := OpenDirect(w);
    forall h | 0 <= h < |u.handles| ensures HandleOk(u, h) { assert h < |w.handles| ==> HandleOk(w, h); }
    forall k | 0 <= k < |u.idle| ensures IdleOk(u, u.idle[k]) { assert IdleOk(w, w.idle[k]); }
    forall g, h | 0 <= g < h < |u.handles| ensures !Share(u.handles[g], u.handles[h]) { assert HandleOk(w, g); }
  }

  lemma SessionKeeps(w: World, p: nat, x: Physical)
    requires Inv(w) && p < |w.sessions|
    ensures Inv(SetSession(w, p, x))
  {
    var t := SetSession(w, p, x);
    forall h | 0 <= h < |t.handles| ensures HandleOk(t, h) { assert HandleOk(w, h); }
    forall k | 0 <= k < |t.idle| ensures IdleOk(t, t.idle[k]) { assert IdleOk(w, w.idle[k]); }
  }

  /** A change to a handle that the idle connections do not point to, and that makes it no more
      alive than it was. */
  lemma HandleKeeps(w: World, h: nat, x: Handle)
    requires Inv(w) && h < |w.handles|
    requires x.inPool == w.handles[h].inPool && !w.handles[h].inPool
    requires x.phase.Live? && x.protocol.Some? ==> w.handles[h].phase.Live? && x.protocol == w.handles[h].protocol
    requires HandleOk(SetHandle(w, h, x), h)
    ensures Inv(SetHandle(w, h, x))
  {
    var t := SetHandle(w, h, x);
    forall g | 0 <= g < |t.handles| ensures HandleOk(t, g) { assert HandleOk(w, g); }
    forall k | 0 <= k < |t.idle| ensures IdleOk(t, t.idle[k]) { assert IdleOk(w, w.idle[k]); }
    forall g, i | 0 <= g < i < |t.handles| ensures !Share(t.handles[g], t.handles[i]) {
      assert !Share(w.handles[g], w.handles[i]);
    }
  }

  lemma TakeKeeps(w: World)
    requires Inv(w) && w.idle != []
    ensures IdleOk(w, w.idle[0]) && HandleOk(w, w.items[w.idle[0]].value) && Inv(TakeIdle(w))
  {
    assert IdleOk(w, w.idle[0]);
    var h := w.items[w.idle[0]].value;
    assert HandleOk(w, h);
    var t := TakeIdle(w);
    forall g | 0 <= g < |t.handles| ensures HandleOk(t, g) { assert HandleOk(w, g); }
    forall k | 0 <= k < |t.idle| ensures IdleOk(t, t.idle[k]) { assert IdleOk(w, w.idle[k + 1]); }
    forall g, i | 0 <= g < i < |t.handles| ensures !Share(t.handles[g], t.handles[i]) {
      assert !Share(w.handles[g], w.handles[i]);
    }
  }

  lemma DropKeeps(w: World, k: nat)
    requires Inv(w) && k < |w.idle|
    ensures IdleOk(w, w.idle[k]) && HandleOk(w, w.items[w.idle[k]].value) && Inv(DropIdle(w, k))
  {
    assert IdleOk(w, w.idle[k]);
    var h := w.items[w.idle[k]].value;
    assert HandleOk(w, h);
    var t := DropIdle(w, k);
    forall g | 0 <= g < |t.handles| ensures HandleOk(t, g) { assert HandleOk(w, g); }
    forall j | 0 <= j < |t.idle| ensures IdleOk(t, t.idle[j]) {
      assert IdleOk(w, w.idle[if j < k then j else j + 1]);
      assert w.idle[if j < k then j else j + 1] != w.idle[k];
    }
    forall g, i | 0 <= g < i < |t.handles| ensures !Share(t.handles[g], t.handles[i]) {
      assert !Share(w.handles[g], w.handles[i]);
    }
  }

  /** A handle the application holds is not among the idle, and its pool connection points back. */
  lemma HeldReturnable(w: World, h: nat)
    requires Inv(w) && Held(w, h)
    ensures HandleOk(w, h)
    ensures w.handles[h].poolConnection.Some? ==> Returnable(w, h) && w.handles[h].poolConnection.value !in w.idle
  {
    assert HandleOk(w, h);
    forall k | 0 <= k < |w.idle| ensures w.handles[h].poolConnection != Some(w.idle[k]) {
      assert IdleOk(w, w.idle[k]);
    }
  }

  /** What the listener does for a handle on its way out. */
  lemma ListenerKeeps(w: World, h: nat, i: nat, replies: ResetReplies)
    requires Inv(w) && h < |w.handles| && i < |w.items| && w.items[i] == Some(h) && i !in w.idle
    requires w.handles[h].phase.Closing? || w.handles[h].phase.Dying?
    requires w.handles[h].protocol.Some? && HandleOk(w, h) && !w.handles[h].inPool
    requires forall g :: 0 <= g < |w.handles| && w.handles[g].phase.Live? ==> w.handles[g].protocol != w.handles[h].protocol
    ensures Inv(ConnectionClosed(w, i, replies))
  {
    var t := ConnectionClosed(w, i, replies);
    hide Reset;
    forall g | 0 <= g < |t.handles| ensures HandleOk(t, g) { assert g < |w.handles| ==> HandleOk(w, g); }
    forall k | 0 <= k < |t.idle| ensures IdleOk(t, t.idle[k]) { assert k < |w.idle| ==> IdleOk(w, w.idle[k]); }
    forall g, j | 0 <= g < j < |t.handles| ensures !Share(t.handles[g], t.handles[j]) {
      assert j < |w.handles| ==> !Share(w.handles[g], w.handles[j]);
    }
  }

  lemma CloseKeeps(w: World, h: nat, fails: bool, replies: ResetReplies)
    requires Inv(w) && Held(w, h)
    ensures HandleOk(w, h) && (w.handles[h].poolConnection.Some? ==> Returnable(w, h))
    ensures Inv(CloseBegin(w, h, fails, replies))
  {
    HeldReturnable(w, h);
    var x := w.handles[h];
    if x.poolConnection.Some? {
      var p, i := x.protocol.value, x.poolConnection.value;
      if !(w.sessions[p].inTransaction && fails) {
        var y := RolledBack(w.sessions[p]).(explicitClosed := true);
        SessionKeeps(w, p, y);
        LeavingKeeps(SetSession(w, p, y), h, x.(phase := Closing), i, replies);
      }
    } else if !x.returnedToPool {
      SessionKeeps(w, x.protocol.value, Disconnected(w.sessions[x.protocol.value]));
    }
  }

  /** No other live handle refers to a live handle's session. */
  lemma Alone(w: World, h: nat, y: Handle)
    requires Inv(w) && h < |w.handles| && w.handles[h].phase.Live? && w.handles[h].protocol.Some?
    requires y.protocol == w.handles[h].protocol && !y.phase.Live?
    ensures var t := SetHandle(w, h, y);
      forall g :: 0 <= g < |t.handles| && t.handles[g].phase.Live? ==> t.handles[g].protocol != y.protocol
  {
    var t := SetHandle(w, h, y);
    forall g | 0 <= g < |t.handles| && t.handles[g].phase.Live? ensures t.handles[g].protocol != y.protocol {
      if g < h { assert !Share(w.handles[g], w.handles[h]); } else if h < g { assert !Share(w.handles[h], w.handles[g]); }
    }
  }

  /** A held handle leaves: it is marked and counted. */
  lemma MarkedKeeps(w: World, h: nat, x: Handle, y: Handle, i: nat)
    requires Inv(w) && Held(w, h) && Returnable(w, h) && w.handles[h].poolConnection == Some(i)
    requires !w.handles[h].returnedToPool
    requires x == w.handles[h].(phase := x.phase) && (x.phase.Closing? || x.phase.Dying?)
    requires y == x.(timesReturned := x.timesReturned + 1)
    ensures var t := SetHandle(w, h, y);
      Inv(t) && HandleOk(t, h) && SetHandle(SetHandle(w, h, x), h, y) == t && !y.inPool && y.protocol.Some?
  {
    assert HandleOk(w, h);
    HandleKeeps(w, h, y);
  }

  /** A held handle leaves through the listener. */
  lemma LeavingKeeps(w: World, h: nat, x: Handle, i: nat, replies: ResetReplies)
    requires Inv(w) && Held(w, h) && Returnable(w, h) && w.handles[h].poolConnection == Some(i)
    requires i !in w.idle && !w.handles[h].returnedToPool
    requires x == w.handles[h].(phase := x.phase) && (x.phase.Closing? || x.phase.Dying?)
    ensures Returnable(SetHandle(w, h, x), h)
    ensures Inv(ReturnToPool(SetHandle(w, h, x), h, i, replies))
  {
    hide Inv, HandleOk, ConnectionClosed, Share;
    var y := x.(timesReturned := x.timesReturned + 1);
    MarkedKeeps(w, h, x, y, i);
    Alone(w, h, y);
    ListenerKeeps(SetHandle(w, h, y), h, i, replies);
  }

  lemma DestroyKeeps(w: World, h: nat, replies: ResetReplies)
    requires Inv(w) && Held(w, h)
    ensures HandleOk(w, h) && (w.handles[h].poolConnection.Some? ==> Returnable(w, h))
    ensures Inv(DestroyBegin(w, h, replies))
  {
    HeldReturnable(w, h);
    var x := w.handles[h];
    HandleKeeps(w, h, x.(phase := Dying));
    var dying := SetHandle(w, h, x.(phase := Dying));
    if x.poolConnection.None? && !x.returnedToPool {
      SessionKeeps(dying, x.protocol.value, Disconnected(w.sessions[x.protocol.value]));
    } else if !IsClosed(w, h) {
      LeavingKeeps(w, h, x.(phase := Dying), x.poolConnection.value, replies);
    }
  }

  lemma SetKeeps(w: World, h: nat, call: Call)
    requires Inv(w) && Held(w, h) && w.handles[h].protocol.Some?
    ensures HandleOk(w, h) && Inv(SetOn(w, h, call))
  {
    assert HandleOk(w, h);
    var p := w.handles[h].protocol.value;
    var (t, _) := ApplyCall(SessionState(w.handles[h].stateFlag, w.sessions[p].now, w.sessions[p].reported),
                            Link(IsClosed(w, h), w.sessions[p].explicitClosed), call);
    hide ApplyCall;
    HandleKeeps(w, h, w.handles[h].(stateFlag := t.stateFlag));
    SessionKeeps(SetHandle(w, h, w.handles[h].(stateFlag := t.stateFlag)), p,
                 w.sessions[p].(now := t.now, reported := t.reported));
  }

  lemma EndsKeep(w: World, h: nat)
    requires Inv(w) && h < |w.handles|
    ensures w.handles[h].phase.Closing? && !w.handles[h].inPool ==> Inv(CloseEnd(w, h))
    ensures w.handles[h].phase.Dying? && !w.handles[h].inPool ==> Inv(DestroyEnd(w, h))
  {
    assert HandleOk(w, h);
    var x := w.handles[h];
    if x.phase.Closing? && !x.inPool {
      HandleKeeps(w, h, x.(protocol := None, poolConnection := None, returnedToPool := true, phase := Live));
    }
    if x.phase.Dying? && !x.inPool { HandleKeeps(w, h, x.(phase := Dead)); }
  }

  function Do(w: World, step: Step): World
    requires Inv(w) && Enabled(w, step)
  {
    match step
    case Add => AddConnection(w)
    case Open => OpenDirect(w)
    case Checkout => TakeKeeps(w); TakeIdle(w)
    case Drop(k) => DropKeeps(w, k); DropIdle(w, k)
    case ClosePool => w.(open := false)
    case Set(h, call) => HeldReturnable(w, h); SetOn(w, h, call)
    case Transact(h, on) =>
      HeldReturnable(w, h);
      var p := w.handles[h].protocol.value;
      SetSession(w, p, w.sessions[p].(inTransaction := on, reported := w.sessions[p].now.autoCommit))
    case Lose(p) => SetSession(w, p, w.sessions[p].(connected := false))
    case BeginClose(h, fails, replies) => HeldReturnable(w, h); CloseBegin(w, h, fails, replies)
    case EndClose(h) => CloseEnd(w, h)
    case BeginDestroy(h, replies) => HeldReturnable(w, h); DestroyBegin(w, h, replies)
    case EndDestroy(h) => DestroyEnd(w, h)
  }

}
