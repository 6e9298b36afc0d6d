/** The setters and `reset` of `MariaDbConnection` as methods on its fields, proved against module
    Session (src/MariaDbConnection.cpp:727-740, 867-887, 1003-1011, 1720-1753 and 1779-1812). */
module ConnectionObject {
  import S = Session

  /** The physical session's settings. A protocol call that fails leaves `left` behind. */
  class Protocol {
    var now: S.Settings
    /** The auto-commit bit of `serverStatus`, as the last reply with a status left it. */
    var reported: bool

    constructor (now: S.Settings)
      ensures this.now == now && reported == now.autoCommit
    {
      this.now := now;
      reported := now.autoCommit;
    }

    method GetAutocommit() returns (autoCommit: bool)
      ensures autoCommit == reported
    {
      return reported;
    }

    method Execute()
      modifies this`reported
      ensures reported == now.autoCommit
    {
      reported := now.autoCommit;
    }

    method SetTimeout(v: int, reply: S.Reply<int>) returns (ok: bool)
      modifies this`now
      ensures now == old(now).(timeout := if reply.Done? then v else reply.left) && ok == reply.Done?
    {
      now := now.(timeout := if reply.Done? then v else reply.left);
      return reply.Done?;
    }

    method SetAutoCommit(v: bool, reply: S.Reply<bool>) returns (ok: bool)
      modifies this
      ensures now == old(now).(autoCommit := if reply.Done? then v else reply.left) && ok == reply.Done?
      ensures reported == if ok then v else old(reported)
    {
      now := now.(autoCommit := if reply.Done? then v else reply.left);
      if reply.Done? { reported := v; }
      return reply.Done?;
    }

    method SetCatalog(v: string, reply: S.Reply<string>) returns (ok: bool)
      modifies this`now
      ensures now == old(now).(database := if reply.Done? then v else reply.left) && ok == reply.Done?
    {
      now := now.(database := if reply.Done? then v else reply.left);
      return reply.Done?;
    }

    method SetReadonly(v: bool, reply: S.Reply<bool>) returns (ok: bool)
      modifies this`now
      ensures now == old(now).(readOnly := if reply.Done? then v else reply.left) && ok == reply.Done?
    {
      now := now.(readOnly := if reply.Done? then v else reply.left);
      return reply.Done?;
    }

    /** An unknown level is refused before anything is sent. */
    method SetTransactionIsolation(level: int, reply: S.Reply<int>) returns (ok: bool)
      modifies this`now
      ensures ok == (S.IsLevel(level) && reply.Done?)
      ensures now == if !S.IsLevel(level) then old(now)
                     else old(now).(isolation := if ok then level else reply.left)
    {
      if !S.IsLevel(level) { return false; }
      now := now.(isolation := if reply.Done? then level else reply.left);
      return reply.Done?;
    }

    method Reset(c: S.Config, reply: S.Reply<S.Settings>) returns (ok: bool)
      modifies this`now
      ensures ok == reply.Done?
      ensures now == if ok then old(now).(isolation := c.globalIsolation, autoCommit := c.globalAutoCommit) else reply.left
    {
      now := if reply.Done? then now.(isolation := c.globalIsolation, autoCommit := c.globalAutoCommit) else reply.left;
      return reply.Done?;
    }
  }

  class Connection {
    var stateFlag: set<S.Setting>
    const protocol: Protocol
    const config: S.Config

    ghost function View(): S.SessionState
      reads this, protocol
    {
      S.SessionState(stateFlag, protocol.now, protocol.reported)
    }

    /** A handle on a physical session starts with every bit clear, whatever the session's state. */
    constructor (protocol: Protocol, config: S.Config)
      ensures this.protocol == protocol && this.config == config
      ensures View() == S.SessionState({}, protocol.now, protocol.reported)
    {
      this.protocol, this.config, stateFlag := protocol, config, {};
    }

    method SetNetworkTimeout(link: S.Link, milliseconds: int, reply: S.Reply<int>) returns (ok: bool)
      modifies this, protocol
      ensures (View(), ok) == S.SetNetworkTimeout(old(View()), link, milliseconds, reply)
    {
      if link.closed { return false; }
      stateFlag := stateFlag + {S.Timeout};
      ok := protocol.SetTimeout(milliseconds, reply);
    }

    method SetAutoCommit(link: S.Link, autoCommit: bool, reply: S.Reply<bool>) returns (ok: bool)
      modifies this, protocol
      ensures (View(), ok) == S.SetAutoCommit(old(View()), link, autoCommit, reply)
    {
      var now := protocol.GetAutocommit();
      if autoCommit == now { return true; }
      if link.explicitClosed { return false; }
      stateFlag := stateFlag + {S.AutoCommit};
      ok := protocol.SetAutoCommit(autoCommit, reply);
    }

    method SetSchema(schema: string, reply: S.Reply<string>) returns (ok: bool)
      modifies this, protocol
      ensures (View(), ok) == S.SetSchema(old(View()), schema, reply)
    {
      if schema == "" { return false; }
      stateFlag := stateFlag + {S.Database};
      ok := protocol.SetCatalog(schema, reply);
    }

    method SetReadOnly(readOnly: bool, reply: S.Reply<bool>) returns (ok: bool)
      modifies this, protocol
      ensures (View(), ok) == S.SetReadOnly(old(View()), readOnly, reply)
    {
      if readOnly {
        stateFlag := stateFlag + {S.ReadOnly};
      } else {
        stateFlag := stateFlag - {S.ReadOnly};
      }
      ok := protocol.SetReadonly(readOnly, reply);
    }

    method SetTransactionIsolation(level: int, reply: S.Reply<int>) returns (ok: bool)
      modifies this, protocol
      ensures (View(), ok) == S.SetTransactionIsolation(old(View()), level, reply)
    {
      stateFlag := stateFlag + {S.Isolation};
      ok := protocol.SetTransactionIsolation(level, reply);
    }

    method ExecuteStatement(link: S.Link) returns (ok: bool)
      modifies protocol
      ensures (View(), ok) == S.Statement(old(View()), link)
    {
      if link.closed || link.explicitClosed { return false; }
      protocol.Execute();
      return true;
    }

    method ResetTimeout(link: S.Link, reply: S.Reply<int>) returns (ok: bool)
      modifies this, protocol
      ensures (View(), ok) == S.ResetTimeout(old(View()), config, link, reply)
    {
      ok := true;
      if S.Timeout in stateFlag { ok := SetNetworkTimeout(link, config.defaults.timeout, reply); }
    }

    method ResetAutoCommit(link: S.Link, reply: S.Reply<bool>) returns (ok: bool)
      modifies this, protocol
      ensures (View(), ok) == S.ResetAutoCommit(old(View()), config, link, reply)
    {
      ok := true;
      if S.AutoCommit in stateFlag { ok := SetAutoCommit(link, config.defaults.autoCommit, reply); }
    }

    method ResetDatabase(reply: S.Reply<string>) returns (ok: bool)
      modifies this, protocol
      ensures (View(), ok) == S.ResetDatabase(old(View()), config, reply)
    {
      ok := true;
      if S.Database in stateFlag && protocol.now.database != config.defaults.database {
        ok := protocol.SetCatalog(config.defaults.database, reply);
      }
    }

    method ResetReadOnly(reply: S.Reply<bool>) returns (ok: bool)
      modifies this, protocol
      ensures (View(), ok) == S.ResetReadOnly(old(View()), reply)
    {
      ok := true;
      if S.ReadOnly in stateFlag { ok := SetReadOnly(false, reply); }
    }

    method ResetIsolation(reply: S.Reply<int>) returns (ok: bool)
      modifies this, protocol
      ensures (View(), ok) == S.ResetIsolation(old(View()), config, reply)
    {
      ok := true;
      if !config.useComReset && S.Isolation in stateFlag {
        ok := SetTransactionIsolation(config.defaultTransactionIsolation, reply);
      }
    }

    method Reset(link: S.Link, r: S.ResetReplies) returns (ok: bool)
      modifies this, protocol
      ensures (View(), ok) == S.Reset(old(View()), config, link, r)
    {
      hide S.ResetTimeout, S.ResetAutoCommit, S.ResetDatabase, S.ResetReadOnly, S.ResetIsolation;
      if config.useComReset {
        ok := protocol.Reset(config, r.com);
        if !ok { return; }
      }
      if stateFlag == {} { return true; }
      ok := ResetTimeout(link, r.timeout);
      if !ok { return; }
      ok := ResetAutoCommit(link, r.autoCommit);
      if !ok { return; }
      ok := ResetDatabase(r.database);
      if !ok { return; }
      ok := ResetReadOnly(r.readOnly);
      if !ok { return; }
      ok := ResetIsolation(r.isolation);
      if !ok { return; }
      stateFlag := {};
    }
  }
}
