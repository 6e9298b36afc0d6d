/** The tracked session settings of `MariaDbConnection` and its `reset`
    (src/MariaDbConnection.cpp:727-740, 867-887, 1003-1011, 1720-1753 and 1779-1812).
    What the server does is a parameter: each protocol call has a `Reply`, and a failed call may
    leave its setting at any value. */
module Session {
  import opened Strings

  /** The bits of `stateFlag`. */
  datatype Setting = Timeout | Database | ReadOnly | AutoCommit | Isolation

  datatype Settings = Settings(
    timeout: int, database: string, readOnly: bool, autoCommit: bool, isolation: int)

  /** What a fresh session has, and what `reset` is configured with. `isolation` in `defaults` is
      the level of a fresh session; `defaultTransactionIsolation` is the field `reset` uses. The
      last two are the server's global values, to which COM_RESET_CONNECTION returns a session. */
  datatype Config = Config(
    defaults: Settings, useComReset: bool, defaultTransactionIsolation: int,
    globalAutoCommit: bool, globalIsolation: int)

  datatype Reply<T> = Done | Failed(left: T)

  /** A handle's dirty bits, the settings of the physical session, and the auto-commit mode that
      the last reply with a status reported, which is what `getAutocommit` returns. */
  datatype SessionState = SessionState(stateFlag: set<Setting>, now: Settings, reported: bool)

  /** How a connection can be gone: `isClosed()`, which a lost session is too, and
      `isExplicitClosed()`, which is what `createStatement` refuses on. */
  datatype Link = Link(closed: bool, explicitClosed: bool)

  // ---------- the setters ----------

  function SetNetworkTimeout(s: SessionState, link: Link, milliseconds: int, reply: Reply<int>): (SessionState, bool) {
    if link.closed then (s, false)
    else
      var s1 := s.(stateFlag := s.stateFlag + {Timeout});
      match reply
      case Done => (s1.(now := s1.now.(timeout := milliseconds)), true)
      case Failed(left) => (s1.(now := s1.now.(timeout := left)), false)
  }

  function SetAutoCommit(s: SessionState, link: Link, autoCommit: bool, reply: Reply<bool>): (SessionState, bool) {
    if autoCommit == s.reported then (s, true)
    else if link.explicitClosed then (s, false)
    else
      var s1 := s.(stateFlag := s.stateFlag + {AutoCommit});
      match reply
      case Done => (s1.(now := s1.now.(autoCommit := autoCommit), reported := autoCommit), true)
      case Failed(left) => (s1.(now := s1.now.(autoCommit := left)), false)
  }

  function SetSchema(s: SessionState, schema: string, reply: Reply<string>): (SessionState, bool) {
    if schema == "" then (s, false)
    else
      var s1 := s.(stateFlag := s.stateFlag + {Database});
      match reply
      case Done => (s1.(now := s1.now.(database := schema)), true)
      case Failed(left) => (s1.(now := s1.now.(database := left)), false)
  }

  function SetReadOnly(s: SessionState, readOnly: bool, reply: Reply<bool>): (SessionState, bool) {
    var s1 := s.(stateFlag := if readOnly then s.stateFlag + {ReadOnly} else s.stateFlag - {ReadOnly});
    match reply
    case Done => (s1.(now := s1.now.(readOnly := readOnly)), true)
    case Failed(left) => (s1.(now := s1.now.(readOnly := left)), false)
  }

  predicate IsLevel(level: int) {
    level in {1, 2, 4, 8}
  }

  function SetTransactionIsolation(s: SessionState, level: int, reply: Reply<int>): (SessionState, bool) {
    var s1 := s.(stateFlag := s.stateFlag + {Isolation});
    if !IsLevel(level) then (s1, false)
    else
      match reply
      case Done => (s1.(now := s1.now.(isolation := level)), true)
      case Failed(left) => (s1.(now := s1.now.(isolation := left)), false)
  }

  /** Any other statement that succeeds: its reply reports the auto-commit mode. */
  function Statement(s: SessionState, link: Link): (SessionState, bool) {
    if link.closed || link.explicitClosed then (s, false) else (s.(reported := s.now.autoCommit), true)
  }

  // ---------- reset ----------

  /** The replies to the calls one `reset` may make. */
  datatype ResetReplies = ResetReplies(
    com: Reply<Settings>, timeout: Reply<int>, autoCommit: Reply<bool>,
    database: Reply<string>, readOnly: Reply<bool>, isolation: Reply<int>)

  /** COM_RESET_CONNECTION returns the session variables to their global values. The driver does
      not look at the status of the reply, so what it has on record as reported stays. */
  function ComReset(s: SessionState, c: Config, reply: Reply<Settings>): (SessionState, bool) {
    match reply
    case Done => (s.(now := s.now.(isolation := c.globalIsolation, autoCommit := c.globalAutoCommit)), true)
    case Failed(left) => (s.(now := left), false)
  }

  function ResetTimeout(s: SessionState, c: Config, link: Link, reply: Reply<int>): (SessionState, bool) {
    if Timeout in s.stateFlag then SetNetworkTimeout(s, link, c.defaults.timeout, reply) else (s, true)
  }

  function ResetAutoCommit(s: SessionState, c: Config, link: Link, reply: Reply<bool>): (SessionState, bool) {
    if AutoCommit in s.stateFlag then SetAutoCommit(s, link, c.defaults.autoCommit, reply) else (s, true)
  }

  /** `resetDatabase`, when the bit is set. */
  function ResetDatabase(s: SessionState, c: Config, reply: Reply<string>): (SessionState, bool) {
    if Database !in s.stateFlag || s.now.database == c.defaults.database then (s, true)
    else
      match reply
      case Done => (s.(now := s.now.(database := c.defaults.database)), true)
      case Failed(left) => (s.(now := s.now.(database := left)), false)
  }

  function ResetReadOnly(s: SessionState, reply: Reply<bool>): (SessionState, bool) {
    if ReadOnly in s.stateFlag then SetReadOnly(s, false, reply) else (s, true)
  }

  function ResetIsolation(s: SessionState, c: Config, reply: Reply<int>): (SessionState, bool) {
    if !c.useComReset && Isolation in s.stateFlag
    then SetTransactionIsolation(s, c.defaultTransactionIsolation, reply) else (s, true)
  }

  /** `reset`; the flag is false when it throws. */
  function Reset(s: SessionState, c: Config, link: Link, r: ResetReplies): (SessionState, bool) {
    var (s0, ok0) := if c.useComReset then ComReset(s, c, r.com) else (s, true);
    if !ok0 then (s0, false) else if s0.stateFlag == {} then (s0, true) else
    var (s1, ok1) := ResetTimeout(s0, c, link, r.timeout);
    if !ok1 then (s1, false) else
    var (s2, ok2) := ResetAutoCommit(s1, c, link, r.autoCommit);
    if !ok2 then (s2, false) else
    var (s3, ok3) := ResetDatabase(s2, c, r.database);
    if !ok3 then (s3, false) else
    var (s4, ok4) := ResetReadOnly(s3, r.readOnly);
    if !ok4 then (s4, false) else
    var (s5, ok5) := ResetIsolation(s4, c, r.isolation);
    if !ok5 then (s5, false) else (s5.(stateFlag := {}), true)
  }

  // ---------- what a call does ----------

  /** The calls an application can make. */
  datatype Call =
    | CallTimeout(milliseconds: int, timeoutReply: Reply<int>)
    | CallAutoCommit(autoCommit: bool, autoCommitReply: Reply<bool>)
    | CallSchema(schema: string, schemaReply: Reply<string>)
    | CallReadOnly(readOnly: bool, readOnlyReply: Reply<bool>)
    | CallIsolation(level: int, isolationReply: Reply<int>)
    | CallStatement

  function ApplyCall(s: SessionState, link: Link, call: Call): (SessionState, bool) {
    match call
    case CallTimeout(ms, r) => SetNetworkTimeout(s, link, ms, r)
    case CallAutoCommit(v, r) => SetAutoCommit(s, link, v, r)
    case CallSchema(v, r) => SetSchema(s, v, r)
    case CallReadOnly(v, r) => SetReadOnly(s, v, r)
    case CallIsolation(v, r) => SetTransactionIsolation(s, v, r)
    case CallStatement => Statement(s, link)
  }

  predicate OnlyDiffers(a: Settings, b: Settings, x: Setting) {
    match x
    case Timeout => b == a.(timeout := b.timeout)
    case Database => b == a.(database := b.database)
    case ReadOnly => b == a.(readOnly := b.readOnly)
    case AutoCommit => b == a.(autoCommit := b.autoCommit)
    case Isolation => b == a.(isolation := b.isolation)
  }

  /** The setting a call is about. */
  function Named(call: Call): Setting
    requires !call.CallStatement?
  {
    match call
    case CallTimeout(_, _) => Timeout
    case CallAutoCommit(_, _) => AutoCommit
    case CallSchema(_, _) => Database
    case CallReadOnly(_, _) => ReadOnly
    case CallIsolation(_, _) => Isolation
  }

  /** The setting has the value the call asks for. */
  predicate AsAsked(now: Settings, call: Call) {
    match call
    case CallTimeout(v, _) => now.timeout == v
    case CallAutoCommit(v, _) => now.autoCommit == v
    case CallSchema(v, _) => now.database == v
    case CallReadOnly(v, _) => now.readOnly == v
    case CallIsolation(v, _) => now.isolation == v
    case CallStatement => true
  }

  /** The protocol's call fails, and leaves the setting so. */
  predicate FailsLeaving(now: Settings, call: Call) {
    match call
    case CallTimeout(_, r) => r == Failed(now.timeout)
    case CallAutoCommit(_, r) => r == Failed(now.autoCommit)
    case CallSchema(_, r) => r == Failed(now.database)
    case CallReadOnly(_, r) => r == Failed(now.readOnly)
    case CallIsolation(_, r) => r == Failed(now.isolation)
    case CallStatement => false
  }

  predicate ReplyDone(call: Call) {
    match call
    case CallTimeout(_, r) => r.Done?
    case CallAutoCommit(_, r) => r.Done?
    case CallSchema(_, r) => r.Done?
    case CallReadOnly(_, r) => r.Done?
    case CallIsolation(_, r) => r.Done?
    case CallStatement => true
  }

  /** Setting auto-commit to the mode on record is left out. */
  predicate Omitted(s: SessionState, call: Call) {
    call.CallAutoCommit? && call.autoCommit == s.reported
  }

  /** The call throws before the protocol is asked. */
  predicate Refused(s: SessionState, link: Link, call: Call) {
    match call
    case CallTimeout(_, _) => link.closed
    case CallAutoCommit(_, _) => !Omitted(s, call) && link.explicitClosed
    case CallSchema(schema, _) => schema == ""
    case CallReadOnly(_, _) => false
    case CallIsolation(level, _) => level != 1 && level != 2 && level != 4 && level != 8
    case CallStatement => link.closed || link.explicitClosed
  }

  /** What every call does, whether it returns or throws. A call that returns leaves its setting
      at the value asked for; one that fails, at what the protocol left; one that is refused or
      left out changes no setting. Every other setting and every other bit stay as they were. */
  lemma CallEffect(s: SessionState, link: Link, call: Call)
    ensures var (t, ok) := ApplyCall(s, link, call);
      && (ok <==> !Refused(s, link, call) && (Omitted(s, call) || ReplyDone(call)))
      && (Refused(s, link, call) || Omitted(s, call) || call.CallStatement? ==> t.now == s.now)
      && (ok && !Omitted(s, call) ==> AsAsked(t.now, call))
      && (!ok && !Refused(s, link, call) ==> FailsLeaving(t.now, call))
      && (!call.CallStatement? ==> OnlyDiffers(s.now, t.now, Named(call)))
  {
  }

  /** The bits: the one named by the call is set before the protocol is asked, and by a refused
      isolation level too; leaving read-only mode clears it instead. */
  lemma CallBits(s: SessionState, link: Link, call: Call)
    ensures var t := ApplyCall(s, link, call).0;
      if call.CallStatement? || Omitted(s, call) || (Refused(s, link, call) && !call.CallIsolation?)
      then t.stateFlag == s.stateFlag
      else
        && (Named(call) in t.stateFlag <==> !(call.CallReadOnly? && !call.readOnly))
        && forall x: Setting :: x != Named(call) ==> (x in t.stateFlag <==> x in s.stateFlag)
  {
  }

  /** The record: a statement brings it to the session's mode, and so does setting auto-commit
      when that succeeds; nothing else touches it. */
  lemma CallRecord(s: SessionState, link: Link, call: Call)
    ensures var (t, ok) := ApplyCall(s, link, call);
      t.reported == if ok && (call.CallStatement? || call.CallAutoCommit?) && !Omitted(s, call)
                    then t.now.autoCommit else s.reported
  {
  }

  // ---------- dirty bits are sound ----------

  /** The setting has its default value. */
  predicate AtDefault(now: Settings, d: Settings, x: Setting) {
    match x
    case Timeout => now.timeout == d.timeout
    case Database => now.database == d.database
    case ReadOnly => !now.readOnly
    case AutoCommit => now.autoCommit == d.autoCommit
    case Isolation => now.isolation == d.isolation
  }

  /** A clear bit means a setting at its default. */
  ghost predicate Sound(s: SessionState, d: Settings) {
    forall x: Setting :: x !in s.stateFlag ==> AtDefault(s.now, d, x)
  }

  /** The one call that loses track: read-only mode is to be left, its bit is cleared first, and
      the protocol fails with the mode still on. */
  predicate LosesTrack(call: Call) {
    call.CallReadOnly? && !call.readOnly && call.readOnlyReply == Failed(true)
  }

  /** Over a protocol whose calls may all fail, a setter, failing or not, keeps the bits sound
      exactly when it is not that one. */
  lemma CallKeepsSoundIff(s: SessionState, link: Link, call: Call, d: Settings)
    requires Sound(s, d)
    ensures Sound(ApplyCall(s, link, call).0, d) <==> !LosesTrack(call)
  {
    var t := ApplyCall(s, link, call).0;
    if LosesTrack(call) {
      assert ReadOnly !in t.stateFlag && !AtDefault(t.now, d, ReadOnly);
    } else {
      forall x: Setting | x !in t.stateFlag ensures AtDefault(t.now, d, x) {
        assert x !in s.stateFlag ==> AtDefault(s.now, d, x);
      }
    }
  }

  /** The connector's own protocol only assigns a field in `setReadonly`, which cannot fail. Over
      it every setter keeps the bits sound, without exception. */
  lemma SettersKeepSound(s: SessionState, link: Link, call: Call, d: Settings)
    requires Sound(s, d) && (call.CallReadOnly? ==> call.readOnlyReply.Done?)
    ensures Sound(ApplyCall(s, link, call).0, d)
  {
    CallKeepsSoundIff(s, link, call, d);
    hide ApplyCall, Sound;
  }

  // ---------- reset restores the defaults ----------

  /** The auto-commit mode that the session has once COM_RESET_CONNECTION, if it is used, is
      done. */
  function BaseAutoCommit(s: SessionState, c: Config): bool {
    if c.useComReset then c.globalAutoCommit else s.now.autoCommit
  }

  /** Auto-commit is at its default by then, or `reset` sends it: its bit is set and the driver
      has something else on record. */
  predicate AutoCommitRestored(s: SessionState, c: Config) {
    || BaseAutoCommit(s, c) == c.defaults.autoCommit
    || (AutoCommit in s.stateFlag && s.reported != c.defaults.autoCommit)
  }

  /** The isolation level of a fresh session is the server's global one, when that is what the
      session is returned to; otherwise `reset` knows it, or has no need to. */
  predicate IsolationRestored(s: SessionState, c: Config) {
    if c.useComReset then c.globalIsolation == c.defaults.isolation
    else Isolation !in s.stateFlag || c.defaultTransactionIsolation == c.defaults.isolation
  }

  function Restored<T>(dirty: bool, was: T, to: T): T {
    if dirty then to else was
  }

  lemma FlagKept(flags: set<Setting>, x: Setting)
    ensures x in flags ==> flags + {x} == flags
    ensures x !in flags ==> flags - {x} == flags
  {
  }

  /** What each step does when it succeeds. */
  lemma TimeoutStep(s: SessionState, c: Config, link: Link, reply: Reply<int>)
    ensures var (t, ok) := ResetTimeout(s, c, link, reply); ok ==>
      t == s.(now := s.now.(timeout := Restored(Timeout in s.stateFlag, s.now.timeout, c.defaults.timeout)))
  {
    FlagKept(s.stateFlag, Timeout);
  }

  lemma AutoCommitStep(s: SessionState, c: Config, link: Link, reply: Reply<bool>)
    ensures var (t, ok) := ResetAutoCommit(s, c, link, reply); ok ==>
      var dirty, d := AutoCommit in s.stateFlag, c.defaults.autoCommit;
      t == s.(now := s.now.(autoCommit := Restored(dirty && s.reported != d, s.now.autoCommit, d)),
              reported := Restored(dirty, s.reported, d))
  {
    FlagKept(s.stateFlag, AutoCommit);
  }

  lemma DatabaseStep(s: SessionState, c: Config, reply: Reply<string>)
    ensures var (t, ok) := ResetDatabase(s, c, reply); ok ==>
      t == s.(now := s.now.(database := Restored(Database in s.stateFlag, s.now.database, c.defaults.database)))
  {
  }

  lemma ReadOnlyStep(s: SessionState, reply: Reply<bool>)
    ensures var (t, ok) := ResetReadOnly(s, reply); ok ==>
      t == s.(stateFlag := s.stateFlag - {ReadOnly},
              now := s.now.(readOnly := Restored(ReadOnly in s.stateFlag, s.now.readOnly, false)))
  {
    FlagKept(s.stateFlag, ReadOnly);
  }

  lemma IsolationStep(s: SessionState, c: Config, reply: Reply<int>)
    ensures var (t, ok) := ResetIsolation(s, c, reply); ok ==>
      t == s.(now := s.now.(isolation :=
        Restored(!c.useComReset && Isolation in s.stateFlag, s.now.isolation, c.defaultTransactionIsolation)))
  {
    FlagKept(s.stateFlag, Isolation);
  }

  /** The settings after a normal return. */
  lemma ResetNow(s: SessionState, c: Config, link: Link, r: ResetReplies)
    requires Reset(s, c, link, r).1
    ensures var t, flags := Reset(s, c, link, r).0, s.stateFlag;
      && t.stateFlag == {}
      && t.now == Settings(
           Restored(Timeout in flags, s.now.timeout, c.defaults.timeout),
           Restored(Database in flags, s.now.database, c.defaults.database),
           Restored(ReadOnly in flags, s.now.readOnly, false),
           Restored(AutoCommit in flags && s.reported != c.defaults.autoCommit,
                    BaseAutoCommit(s, c), c.defaults.autoCommit),
           if c.useComReset then c.globalIsolation
           else Restored(Isolation in flags, s.now.isolation, c.defaultTransactionIsolation))
      && t.reported == Restored(AutoCommit in flags, s.reported, c.defaults.autoCommit)
  {
    var s0 := if c.useComReset then ComReset(s, c, r.com).0 else s;
    TimeoutStep(s0, c, link, r.timeout);
    var s1 := ResetTimeout(s0, c, link, r.timeout).0;
    AutoCommitStep(s1, c, link, r.autoCommit);
    var s2 := ResetAutoCommit(s1, c, link, r.autoCommit).0;
    DatabaseStep(s2, c, r.database);
    var s3 := ResetDatabase(s2, c, r.database).0;
    ReadOnlyStep(s3, r.readOnly);
    IsolationStep(ResetReadOnly(s3, r.readOnly).0, c, r.isolation);
    hide ResetTimeout, ResetAutoCommit, ResetDatabase, ResetReadOnly, ResetIsolation;
  }

  /** After a normal return of `reset` from sound bits every bit is clear, and every setting is at
      its default exactly when auto-commit and the isolation level are restored in this sense. */
  lemma ResetRestoresIff(s: SessionState, c: Config, link: Link, r: ResetReplies)
    requires Sound(s, c.defaults) && Reset(s, c, link, r).1
    ensures Reset(s, c, link, r).0.stateFlag == {}
    ensures (forall x: Setting :: AtDefault(Reset(s, c, link, r).0.now, c.defaults, x))
        <==> AutoCommitRestored(s, c) && IsolationRestored(s, c)
  {
    var t := Reset(s, c, link, r).0;
    assert forall x: Setting :: x !in s.stateFlag ==> AtDefault(s.now, c.defaults, x);
    ResetNow(s, c, link, r);
    hide Reset;
    assert AtDefault(t.now, c.defaults, Timeout) && AtDefault(t.now, c.defaults, Database)
        && AtDefault(t.now, c.defaults, ReadOnly);
    assert AtDefault(t.now, c.defaults, AutoCommit) <==> AutoCommitRestored(s, c);
    assert AtDefault(t.now, c.defaults, Isolation) <==> IsolationRestored(s, c);
  }

  /** With COM_RESET_CONNECTION, a session nobody touched is reset away from its default when the
      `autocommit` option differs from the server's global value: no bit is set, so nothing is
      sent. */
  lemma UntouchedResetAway(c: Config, link: Link, r: ResetReplies)
    requires c.useComReset && r.com.Done? && c.globalAutoCommit != c.defaults.autoCommit
    ensures var (t, ok) := Reset(SessionState({}, c.defaults, c.defaults.autoCommit), c, link, r);
      && ok && t.stateFlag == {} && t.now.autoCommit != c.defaults.autoCommit
      && t.reported == c.defaults.autoCommit
  {
  }

  /** While the driver's record is stale, setting auto-commit to the recorded mode does nothing:
      it returns normally, and the server keeps the other one. */
  lemma StaleRecordIgnored(s: SessionState, link: Link, reply: Reply<bool>)
    requires s.reported != s.now.autoCommit
    ensures var (t, ok) := SetAutoCommit(s, link, s.reported, reply); ok && t.now.autoCommit != s.reported
  {
  }

  /** The field's initial 0 is no isolation level: unless it is set, a session with a changed
      level cannot be reset without COM_RESET_CONNECTION. */
  lemma UnconfiguredResetThrows(s: SessionState, c: Config, link: Link, r: ResetReplies)
    requires !c.useComReset && Isolation in s.stateFlag && c.defaultTransactionIsolation == 0
    ensures !Reset(s, c, link, r).1
  {
  }

  /** COM_RESET_CONNECTION changes nothing whose bit is clear. */
  predicate ComResetHarmless(s: SessionState, c: Config) {
    && (AutoCommit in s.stateFlag || c.globalAutoCommit == c.defaults.autoCommit)
    && (Isolation in s.stateFlag || c.globalIsolation == c.defaults.isolation)
  }

  lemma ComResetKeepsSoundIff(s: SessionState, c: Config)
    requires Sound(s, c.defaults)
    ensures Sound(ComReset(s, c, Done).0, c.defaults) <==> ComResetHarmless(s, c)
  {
    var t := ComReset(s, c, Done).0;
    forall x: Setting
      ensures (x !in t.stateFlag ==> AtDefault(t.now, c.defaults, x)) <==>
        match x
        case AutoCommit => AutoCommit in s.stateFlag || c.globalAutoCommit == c.defaults.autoCommit
        case Isolation => Isolation in s.stateFlag || c.globalIsolation == c.defaults.isolation
        case _ => true
    {
      assert x !in s.stateFlag ==> AtDefault(s.now, c.defaults, x);
    }
    if Sound(t, c.defaults) {
      assert AutoCommit !in t.stateFlag ==> AtDefault(t.now, c.defaults, AutoCommit);
      assert Isolation !in t.stateFlag ==> AtDefault(t.now, c.defaults, Isolation);
    }
  }

  /** Every step but the one for read-only mode leaves the bits as sound as they were. */
  lemma ResetStepsSoundIff(s: SessionState, c: Config, link: Link, r: ResetReplies)
    ensures Sound(ResetTimeout(s, c, link, r.timeout).0, c.defaults) <==> Sound(s, c.defaults)
    ensures Sound(ResetAutoCommit(s, c, link, r.autoCommit).0, c.defaults) <==> Sound(s, c.defaults)
    ensures Sound(ResetDatabase(s, c, r.database).0, c.defaults) <==> Sound(s, c.defaults)
    ensures Sound(ResetIsolation(s, c, r.isolation).0, c.defaults) <==> Sound(s, c.defaults)
  {
    TimeoutTouches(s, c, link, r.timeout);
    AutoCommitTouches(s, c, link, r.autoCommit);
    DatabaseTouches(s, c, r.database);
    IsolationTouches(s, c, r.isolation);
    hide ResetTimeout, ResetAutoCommit, ResetDatabase, ResetIsolation, Sound;
  }

  lemma TimeoutTouches(s: SessionState, c: Config, link: Link, reply: Reply<int>)
    ensures Sound(ResetTimeout(s, c, link, reply).0, c.defaults) <==> Sound(s, c.defaults)
  {
    FlagKept(s.stateFlag, Timeout);
    OnlyDirty(s, ResetTimeout(s, c, link, reply).0, c.defaults, Timeout);
    hide AtDefault, Sound;
  }

  lemma AutoCommitTouches(s: SessionState, c: Config, link: Link, reply: Reply<bool>)
    ensures Sound(ResetAutoCommit(s, c, link, reply).0, c.defaults) <==> Sound(s, c.defaults)
  {
    FlagKept(s.stateFlag, AutoCommit);
    OnlyDirty(s, ResetAutoCommit(s, c, link, reply).0, c.defaults, AutoCommit);
    hide AtDefault, Sound;
  }

  lemma DatabaseTouches(s: SessionState, c: Config, reply: Reply<string>)
    ensures Sound(ResetDatabase(s, c, reply).0, c.defaults) <==> Sound(s, c.defaults)
  {
    OnlyDirty(s, ResetDatabase(s, c, reply).0, c.defaults, Database);
    hide AtDefault, Sound;
  }

  lemma IsolationTouches(s: SessionState, c: Config, reply: Reply<int>)
    ensures Sound(ResetIsolation(s, c, reply).0, c.defaults) <==> Sound(s, c.defaults)
  {
    FlagKept(s.stateFlag, Isolation);
    OnlyDirty(s, ResetIsolation(s, c, reply).0, c.defaults, Isolation);
    hide AtDefault, Sound;
  }

  /** A change of one dirty setting does not touch soundness. */
  lemma OnlyDirty(s: SessionState, t: SessionState, d: Settings, x: Setting)
    ensures t.stateFlag == s.stateFlag && (t.now == s.now || (x in s.stateFlag && OnlyDiffers(s.now, t.now, x)))
      ==> (Sound(t, d) <==> Sound(s, d))
  {
    if t.stateFlag == s.stateFlag && (t.now == s.now || (x in s.stateFlag && OnlyDiffers(s.now, t.now, x))) {
      forall y: Setting ensures y !in s.stateFlag ==> (AtDefault(t.now, d, y) <==> AtDefault(s.now, d, y)) {
      }
    }
  }

  lemma ReadOnlyStepSoundIff(s: SessionState, d: Settings, reply: Reply<bool>)
    ensures Sound(ResetReadOnly(s, reply).0, d)
        <==> Sound(s, d) && !(ReadOnly in s.stateFlag && reply == Failed(true))
  {
    var t := ResetReadOnly(s, reply).0;
    if ReadOnly in s.stateFlag {
      assert AtDefault(t.now, d, ReadOnly) <==> reply != Failed(true);
      forall y: Setting | y != ReadOnly
        ensures (y in t.stateFlag <==> y in s.stateFlag) && (AtDefault(t.now, d, y) <==> AtDefault(s.now, d, y))
      {
      }
      assert ReadOnly !in t.stateFlag;
    }
  }

  /** What the three steps before read-only mode need, each when it is taken. */
  predicate ReachesReadOnly(s: SessionState, c: Config, link: Link, r: ResetReplies) {
    && (Timeout in s.stateFlag ==> !link.closed && r.timeout.Done?)
    && (AutoCommit in s.stateFlag && s.reported != c.defaults.autoCommit ==> !link.explicitClosed && r.autoCommit.Done?)
    && (Database in s.stateFlag && s.now.database != c.defaults.database ==> r.database.Done?)
  }

  /** `reset` returns normally exactly when every call it makes is possible and answered: the
      ones for dirty settings that the driver does not know to be at their default already. */
  lemma ResetReturnsIff(s: SessionState, c: Config, link: Link, r: ResetReplies)
    ensures Reset(s, c, link, r).1 <==>
      && (c.useComReset ==> r.com.Done?)
      && ReachesReadOnly(s, c, link, r)
      && (ReadOnly in s.stateFlag ==> r.readOnly.Done?)
      && (!c.useComReset && Isolation in s.stateFlag ==> IsLevel(c.defaultTransactionIsolation) && r.isolation.Done?)
  {
    if c.useComReset && r.com.Failed? { return; }
    var s0 := if c.useComReset then ComReset(s, c, r.com).0 else s;
    StepsTaken(s0, c, link, r);
    hide ResetTimeout, ResetAutoCommit, ResetDatabase, ResetReadOnly, ResetIsolation, IsLevel;
  }

  /** The steps one after the other, each on the state that the ones before left. */
  lemma StepsTaken(s: SessionState, c: Config, link: Link, r: ResetReplies)
    ensures var (s1, ok1) := ResetTimeout(s, c, link, r.timeout);
      var (s2, ok2) := ResetAutoCommit(s1, c, link, r.autoCommit);
      var (s3, ok3) := ResetDatabase(s2, c, r.database);
      var (s4, ok4) := ResetReadOnly(s3, r.readOnly);
      && (ok1 && ok2 && ok3 <==> ReachesReadOnly(s, c, link, r))
      && (ok4 <==> (ReadOnly in s.stateFlag ==> r.readOnly.Done?))
      && (ResetIsolation(s4, c, r.isolation).1 <==>
            (!c.useComReset && Isolation in s.stateFlag ==> IsLevel(c.defaultTransactionIsolation) && r.isolation.Done?))
      && s3.stateFlag == s.stateFlag
  {
    TimeoutTaken(s, c, link, r.timeout);
    var s1 := ResetTimeout(s, c, link, r.timeout).0;
    AutoCommitTaken(s1, c, link, r.autoCommit);
    var s2 := ResetAutoCommit(s1, c, link, r.autoCommit).0;
    DatabaseTaken(s2, c, r.database);
    LastTaken(ResetDatabase(s2, c, r.database).0, c, r);
    hide ResetTimeout, ResetAutoCommit, ResetDatabase, ResetReadOnly, ResetIsolation, IsLevel;
  }

  lemma TimeoutTaken(s: SessionState, c: Config, link: Link, reply: Reply<int>)
    ensures var (t, ok) := ResetTimeout(s, c, link, reply);
      && (ok <==> (Timeout in s.stateFlag ==> !link.closed && reply.Done?))
      && t == s.(now := s.now.(timeout := t.now.timeout))
  {
    FlagKept(s.stateFlag, Timeout);
  }

  lemma AutoCommitTaken(s: SessionState, c: Config, link: Link, reply: Reply<bool>)
    ensures var (t, ok) := ResetAutoCommit(s, c, link, reply);
      && (ok <==> (AutoCommit in s.stateFlag && s.reported != c.defaults.autoCommit ==> !link.explicitClosed && reply.Done?))
      && t == s.(now := s.now.(autoCommit := t.now.autoCommit), reported := t.reported)
  {
    FlagKept(s.stateFlag, AutoCommit);
  }

  lemma DatabaseTaken(s: SessionState, c: Config, reply: Reply<string>)
    ensures var (t, ok) := ResetDatabase(s, c, reply);
      && (ok <==> (Database in s.stateFlag && s.now.database != c.defaults.database ==> reply.Done?))
      && (!ok ==> reply == Failed(t.now.database))
      && t == s.(now := s.now.(database := t.now.database))
  {
  }

  lemma LastTaken(s: SessionState, c: Config, r: ResetReplies)
    ensures var (t, ok) := ResetReadOnly(s, r.readOnly);
      && (ok <==> (ReadOnly in s.stateFlag ==> r.readOnly.Done?))
      && (ResetIsolation(t, c, r.isolation).1 <==>
            (!c.useComReset && Isolation in s.stateFlag ==> IsLevel(c.defaultTransactionIsolation) && r.isolation.Done?))
  {
    hide IsLevel;
  }

  /** A `reset` that throws has taken the steps before the failing one and none behind it. */
  lemma FailedResetStops(s: SessionState, c: Config, link: Link, r: ResetReplies)
    requires !Reset(s, c, link, r).1
    ensures var t := Reset(s, c, link, r).0;
      if c.useComReset && r.com.Failed? then t == s.(now := r.com.left)
      else
        var now := if c.useComReset
                   then s.now.(isolation := c.globalIsolation, autoCommit := c.globalAutoCommit) else s.now;
        && (TimeoutFails(s, link, r) ==>
              t.now == now.(timeout := t.now.timeout) && t.stateFlag == s.stateFlag)
        && (!TimeoutFails(s, link, r) && AutoCommitFails(s, c, link, r) ==>
              t.now == now.(timeout := t.now.timeout, autoCommit := t.now.autoCommit) && t.stateFlag == s.stateFlag)
        && (!ReachesReadOnly(s, c, link, r) ==>
              t.now.readOnly == now.readOnly && t.now.isolation == now.isolation && t.stateFlag == s.stateFlag)
        && (ReadOnly in s.stateFlag && r.readOnly.Failed? ==> t.now.isolation == now.isolation)
        && t.stateFlag == (if ReachesReadOnly(s, c, link, r) then s.stateFlag - {ReadOnly} else s.stateFlag)
  {
    if c.useComReset && r.com.Failed? { return; }
    var s0 := if c.useComReset then ComReset(s, c, r.com).0 else s;
    TimeoutTaken(s0, c, link, r.timeout);
    var s1 := ResetTimeout(s0, c, link, r.timeout).0;
    AutoCommitTaken(s1, c, link, r.autoCommit);
    var s2 := ResetAutoCommit(s1, c, link, r.autoCommit).0;
    DatabaseTaken(s2, c, r.database);
    var s3 := ResetDatabase(s2, c, r.database).0;
    LastTaken(s3, c, r);
    LastKeeps(s3, c, r);
    hide ResetTimeout, ResetAutoCommit, ResetDatabase, ResetReadOnly, ResetIsolation, IsLevel;
  }

  lemma LastKeeps(s: SessionState, c: Config, r: ResetReplies)
    ensures var t := ResetReadOnly(s, r.readOnly).0;
      && t == s.(now := s.now.(readOnly := t.now.readOnly), stateFlag := s.stateFlag - {ReadOnly})
      && var u := ResetIsolation(t, c, r.isolation).0;
         u == t.(now := t.now.(isolation := u.now.isolation))
  {
    FlagKept(s.stateFlag, ReadOnly);
    FlagKept(s.stateFlag - {ReadOnly}, Isolation);
    hide IsLevel;
  }

  predicate TimeoutFails(s: SessionState, link: Link, r: ResetReplies) {
    Timeout in s.stateFlag && (link.closed || r.timeout.Failed?)
  }

  predicate AutoCommitFails(s: SessionState, c: Config, link: Link, r: ResetReplies) {
    && AutoCommit in s.stateFlag && s.reported != c.defaults.autoCommit
    && (link.explicitClosed || r.autoCommit.Failed?)
  }

  /** A `reset` that throws leaves the bits sound exactly when COM_RESET_CONNECTION, if it was
      sent, succeeded and was harmless (or failed and happened to leave the clean settings at
      their defaults), and leaving read-only mode was not what failed. */
  lemma FailedResetKeepsSoundIff(s: SessionState, c: Config, link: Link, r: ResetReplies)
    requires Sound(s, c.defaults) && !Reset(s, c, link, r).1
    ensures Sound(Reset(s, c, link, r).0, c.defaults) <==>
      if c.useComReset && r.com.Failed? then Sound(s.(now := r.com.left), c.defaults)
      else
        && (c.useComReset ==> ComResetHarmless(s, c))
        && !(ReadOnly in s.stateFlag && ReachesReadOnly(s, c, link, r) && r.readOnly == Failed(true))
  {
    if c.useComReset && r.com.Failed? { return; }
    ComResetKeepsSoundIff(s, c);
    var s0 := if c.useComReset then ComReset(s, c, r.com).0 else s;
    StepsTaken(s0, c, link, r);
    ResetStepsSoundIff(s0, c, link, r);
    var (s1, ok1) := ResetTimeout(s0, c, link, r.timeout);
    ResetStepsSoundIff(s1, c, link, r);
    var (s2, ok2) := ResetAutoCommit(s1, c, link, r.autoCommit);
    ResetStepsSoundIff(s2, c, link, r);
    var (s3, ok3) := ResetDatabase(s2, c, r.database);
    ReadOnlyStepSoundIff(s3, c.defaults, r.readOnly);
    var s4 := ResetReadOnly(s3, r.readOnly).0;
    ResetStepsSoundIff(s4, c, link, r);
    hide ResetTimeout, ResetAutoCommit, ResetDatabase, ResetReadOnly, ResetIsolation, Sound, ComResetHarmless, IsLevel;
  }

  // ---------- runs ----------

  /** A setter or another statement, or a `reset`, on an open or a closed connection. */
  datatype Event = Use(call: Call, link: Link) | DoReset(replies: ResetReplies, link: Link)

  function Happen(s: SessionState, c: Config, e: Event): SessionState {
    match e
    case Use(call, link) => ApplyCall(s, link, call).0
    case DoReset(replies, link) => Reset(s, c, link, replies).0
  }

  /** The event is none of those that lose track of a setting. */
  ghost predicate Careful(s: SessionState, c: Config, e: Event) {
    match e
    case Use(call, _) => !LosesTrack(call)
    case DoReset(r, link) =>
      if Reset(s, c, link, r).1 then AutoCommitRestored(s, c) && IsolationRestored(s, c)
      else if c.useComReset && r.com.Failed? then Sound(s.(now := r.com.left), c.defaults)
      else
        && (c.useComReset ==> ComResetHarmless(s, c))
        && !(ReadOnly in s.stateFlag && ReachesReadOnly(s, c, link, r) && r.readOnly == Failed(true))
  }

  ghost predicate CarefulRun(s: SessionState, c: Config, events: seq<Event>)
    decreases |events|
  {
    events == [] || (Careful(s, c, events[0]) && CarefulRun(Happen(s, c, events[0]), c, events[1..]))
  }

  function RunEvents(s: SessionState, c: Config, events: seq<Event>): SessionState
    decreases |events|
  {
    if events == [] then s else RunEvents(Happen(s, c, events[0]), c, events[1..])
  }

  lemma EventKeepsSoundIff(s: SessionState, c: Config, e: Event)
    requires Sound(s, c.defaults)
    ensures Sound(Happen(s, c, e), c.defaults) <==> Careful(s, c, e)
  {
    match e
    case Use(call, link) =>
      CallKeepsSoundIff(s, link, call, c.defaults);
      hide ApplyCall, Sound;
    case DoReset(r, link) =>
      if Reset(s, c, link, r).1 {
        ResetRestoresIff(s, c, link, r);
        hide Reset, AtDefault, AutoCommitRestored, IsolationRestored;
      } else {
        FailedResetKeepsSoundIff(s, c, link, r);
        hide Reset, Sound;
      }
  }

  /** In every run of setters, statements and resets, on open and closed connections and with
      failures among them, a clear bit means a default setting. */
  lemma {:induction false} RunKeepsSound(s: SessionState, c: Config, events: seq<Event>)
    requires Sound(s, c.defaults) && CarefulRun(s, c, events)
    ensures Sound(RunEvents(s, c, events), c.defaults)
    decreases |events|
  {
    if events != [] {
      hide Sound, Careful, Happen;
      EventKeepsSoundIff(s, c, events[0]);
      RunKeepsSound(Happen(s, c, events[0]), c, events[1..]);
    }
  }
}
