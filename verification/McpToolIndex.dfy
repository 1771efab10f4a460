/** app/ai/mcp_integration.py: the manager's tool caches.

    Tools are kept per server, indexed by name and combined into one list. All three hold the
    same objects and drop them by identity, because servers may serve tools of equal names.

    Beside them the manager keeps the session each server's tools came through. Sessions are
    numbered in the order they are registered, and a set says which were told to close. What
    every operation keeps is that a session is registered or told to close, and never both. */
module McpToolIndex {
  import opened Options

  class Tool {
    const name: string

    constructor (name: string)
      ensures this.name == name
    {
      this.name := name;
    }
  }

  /** One item of the `_server_tools` dict, which keeps its insertion order. */
  datatype Server = Server(name: string, tools: seq<Tool>)

  // ---------------------------------------------------------------- lists of tools

  function Flat(servers: seq<Server>): seq<Tool> {
    if |servers| == 0 then [] else servers[0].tools + Flat(servers[1..])
  }

  /** The tools of that name, in order. */
  function Named(tools: seq<Tool>, name: string): seq<Tool> {
    if |tools| == 0 then []
    else (if tools[0].name == name then [tools[0]] else []) + Named(tools[1..], name)
  }

  function Without(tools: seq<Tool>, gone: seq<Tool>): seq<Tool> {
    if |tools| == 0 then []
    else (if tools[0] in gone then [] else [tools[0]]) + Without(tools[1..], gone)
  }

  predicate Distinct(tools: seq<Tool>) {
    forall i, j :: 0 <= i < j < |tools| ==> tools[i] != tools[j]
  }

  predicate Disjoint(a: seq<Tool>, b: seq<Tool>) {
    forall t :: t in a ==> t !in b
  }

  lemma {:induction false} FlatAppend(a: seq<Server>, b: seq<Server>)
    ensures Flat(a + b) == Flat(a) + Flat(b)
  {
    if a == [] {
      assert a + b == b;
    } else {
      assert (a + b)[1..] == a[1..] + b;
      FlatAppend(a[1..], b);
    }
  }

  lemma {:induction false} NamedAppend(a: seq<Tool>, b: seq<Tool>, name: string)
    ensures Named(a + b, name) == Named(a, name) + Named(b, name)
  {
    if a == [] {
      assert a + b == b;
    } else {
      assert (a + b)[1..] == a[1..] + b;
      NamedAppend(a[1..], b, name);
    }
  }

  lemma {:induction false} NamedMember(tools: seq<Tool>, name: string, t: Tool)
    ensures t in Named(tools, name) <==> t in tools && t.name == name
  {
    if tools != [] {
      NamedMember(tools[1..], name, t);
    }
  }

  lemma {:induction false} NamedDistinct(tools: seq<Tool>, name: string)
    requires Distinct(tools)
    ensures Distinct(Named(tools, name))
  {
    if tools != [] {
      NamedDistinct(tools[1..], name);
      NamedMember(tools[1..], name, tools[0]);
      assert tools[0] !in tools[1..];
    }
  }

  lemma {:induction false} WithoutAppend(a: seq<Tool>, b: seq<Tool>, gone: seq<Tool>)
    ensures Without(a + b, gone) == Without(a, gone) + Without(b, gone)
  {
    if a == [] {
      assert a + b == b;
    } else {
      assert (a + b)[1..] == a[1..] + b;
      WithoutAppend(a[1..], b, gone);
    }
  }

  lemma {:induction false} WithoutNone(tools: seq<Tool>, gone: seq<Tool>)
    requires Disjoint(tools, gone)
    ensures Without(tools, gone) == tools
  {
    if tools != [] {
      assert tools[0] in tools;
      WithoutNone(tools[1..], gone);
    }
  }

  lemma {:induction false} WithoutAll(tools: seq<Tool>, gone: seq<Tool>)
    requires forall t :: t in tools ==> t in gone
    ensures Without(tools, gone) == []
  {
    if tools != [] {
      assert tools[0] in tools;
      WithoutAll(tools[1..], gone);
    }
  }

  lemma {:induction false} WithoutMember(tools: seq<Tool>, gone: seq<Tool>, t: Tool)
    ensures t in Without(tools, gone) <==> t in tools && t !in gone
  {
    if tools != [] {
      WithoutMember(tools[1..], gone, t);
    }
  }

  /** Dropping one more tool is dropping it from what is left. */
  lemma {:induction false} WithoutOneMore(tools: seq<Tool>, gone: seq<Tool>, t: Tool)
    ensures Without(tools, gone + [t]) == Without(Without(tools, gone), [t])
  {
    if tools != [] {
      WithoutOneMore(tools[1..], gone, t);
      var first := if tools[0] in gone then [] else [tools[0]];
      WithoutAppend(first, Without(tools[1..], gone), [t]);
    }
  }

  lemma {:induction false} NamedWithout(tools: seq<Tool>, name: string, gone: seq<Tool>)
    ensures Named(Without(tools, gone), name) == Without(Named(tools, name), gone)
  {
    if tools != [] {
      NamedWithout(tools[1..], name, gone);
      var first := if tools[0] in gone then [] else [tools[0]];
      NamedAppend(first, Without(tools[1..], gone), name);
      WithoutAppend(if tools[0].name == name then [tools[0]] else [], Named(tools[1..], name), gone);
    }
  }

  // ---------------------------------------------------------------- the index

  /** The index is a function of the tools: under each name exactly the tools of that name, in
      order, and no name without tools. */
  predicate Indexes(index: map<string, seq<Tool>>, tools: seq<Tool>) {
    && (forall name :: name in index ==> index[name] == Named(tools, name) && index[name] != [])
    && (forall t :: t in tools ==> t.name in index)
  }

  /** Under each name the index has exactly the tools of that name, in whatever order. */
  predicate HoldsExactly(index: map<string, seq<Tool>>, tools: seq<Tool>) {
    && (forall name :: name in index ==> forall t :: t in index[name] ==> t in tools && t.name == name)
    && (forall t :: t in tools ==> t.name in index && t in index[t.name])
  }

  lemma IndexHasName(index: map<string, seq<Tool>>, tools: seq<Tool>, name: string)
    requires Indexes(index, tools)
    ensures name in index <==> Named(tools, name) != []
  {
    if Named(tools, name) != [] {
      NamedMember(tools, name, Named(tools, name)[0]);
    }
  }

  lemma IndexOneMore(index: map<string, seq<Tool>>, tools: seq<Tool>, t: Tool)
    requires Indexes(index, tools)
    ensures var before := if t.name in index then index[t.name] else [];
            Indexes(index[t.name := before + [t]], tools + [t])
  {
    IndexHasName(index, tools, t.name);
    forall name
      ensures Named(tools + [t], name) == Named(tools, name) + if t.name == name then [t] else []
    {
      NamedAppend(tools, [t], name);
    }
  }

  lemma NamedOneLess(tools: seq<Tool>, t: Tool, name: string)
    ensures Named(Without(tools, [t]), name)
         == if name == t.name then Without(Named(tools, name), [t]) else Named(tools, name)
  {
    NamedWithout(tools, name, [t]);
    if name != t.name {
      NamedMember(tools, name, t);
      WithoutNone(Named(tools, name), [t]);
    }
  }

  /** The index after a tool went from the list under its name. */
  function IndexLess(index: map<string, seq<Tool>>, t: Tool): map<string, seq<Tool>> {
    if t.name !in index then index
    else
      var left := Without(index[t.name], [t]);
      if left == [] then index - {t.name} else index[t.name := left]
  }

  lemma IndexOneLess(index: map<string, seq<Tool>>, tools: seq<Tool>, t: Tool)
    requires Indexes(index, tools)
    ensures Indexes(IndexLess(index, t), Without(tools, [t]))
  {
    hide Without, Named;
    var rest, index' := Without(tools, [t]), IndexLess(index, t);
    forall name | name in index'
      ensures index'[name] == Named(rest, name) && index'[name] != []
    {
      NamedOneLess(tools, t, name);
    }
    forall u | u in rest
      ensures u.name in index'
    {
      WithoutMember(tools, [t], u);
      if u.name == t.name {
        NamedMember(tools, t.name, u);
        WithoutMember(Named(tools, t.name), [t], u);
      }
    }
  }

  // ---------------------------------------------------------------- servers

  predicate HasServer(servers: seq<Server>, name: string) {
    exists i :: 0 <= i < |servers| && servers[i].name == name
  }

  function ToolsOf(servers: seq<Server>, name: string): seq<Tool> {
    if |servers| == 0 then []
    else if servers[0].name == name then servers[0].tools else ToolsOf(servers[1..], name)
  }

  /** `pop(name)`: the dict without that item. */
  function Dropped(servers: seq<Server>, name: string): seq<Server> {
    if |servers| == 0 then []
    else if servers[0].name == name then servers[1..] else [servers[0]] + Dropped(servers[1..], name)
  }

  predicate DistinctServers(servers: seq<Server>) {
    forall i, j :: 0 <= i < j < |servers| ==> servers[i].name != servers[j].name
  }

  lemma {:induction false} DroppedServers(servers: seq<Server>, name: string)
    requires DistinctServers(servers) && Distinct(Flat(servers))
    ensures var rest := Dropped(servers, name);
      && DistinctServers(rest) && Distinct(Flat(rest)) && !HasServer(rest, name)
      && (forall s :: s in rest <==> s in servers && s.name != name)
      && Flat(rest) == Without(Flat(servers), ToolsOf(servers, name))
      && (forall t :: t in Flat(servers) <==> t in Flat(rest) || t in ToolsOf(servers, name))
      && Disjoint(Flat(rest), ToolsOf(servers, name))
  {
    hide Without;
    if servers == [] {
      WithoutNone([], []);
    } else {
      var first, rest := servers[0], servers[1..];
      assert Flat(servers) == first.tools + Flat(rest);
      DistinctParts(first.tools, Flat(rest));
      forall s | s in rest
        ensures s.name != first.name
      {
        var j :| 0 <= j < |rest| && rest[j] == s;
        assert servers[j + 1] == s;
      }
      if first.name == name {
        WithoutAppend(first.tools, Flat(rest), first.tools);
        WithoutAll(first.tools, first.tools);
        WithoutNone(Flat(rest), first.tools);
      } else {
        DroppedServers(rest, name);
        var gone := ToolsOf(servers, name);
        assert Dropped(servers, name)[1..] == Dropped(rest, name);
        assert Disjoint(first.tools, gone);
        WithoutAppend(first.tools, Flat(rest), gone);
        WithoutNone(first.tools, gone);
        DistinctJoin(first.tools, Flat(Dropped(rest, name)));
      }
    }
  }

  lemma DistinctParts(a: seq<Tool>, b: seq<Tool>)
    requires Distinct(a + b)
    ensures Distinct(a) && Distinct(b) && Disjoint(a, b) && Disjoint(b, a)
  {
    assert forall i :: 0 <= i < |a| ==> (a + b)[i] == a[i];
    assert forall j :: 0 <= j < |b| ==> (a + b)[|a| + j] == b[j];
  }

  lemma DistinctJoin(a: seq<Tool>, b: seq<Tool>)
    requires Distinct(a) && Distinct(b) && Disjoint(a, b)
    ensures Distinct(a + b)
  {
    forall i, j | 0 <= i < j < |a + b|
      ensures (a + b)[i] != (a + b)[j]
    {
      if i < |a| <= j {
        assert a[i] in a && b[j - |a|] in b;
      }
    }
  }

  lemma {:induction false} ToolsOfAbsent(servers: seq<Server>, name: string)
    requires !HasServer(servers, name)
    ensures ToolsOf(servers, name) == [] && Dropped(servers, name) == servers
  {
    if servers != [] {
      assert forall i :: 0 <= i < |servers[1..]| ==> servers[1..][i] == servers[i + 1];
      ToolsOfAbsent(servers[1..], name);
    }
  }

  lemma ServersOneMore(servers: seq<Server>, server: Server)
    requires DistinctServers(servers) && !HasServer(servers, server.name)
    requires Distinct(Flat(servers)) && Distinct(server.tools) && Disjoint(Flat(servers), server.tools)
    ensures DistinctServers(servers + [server])
    ensures Flat(servers + [server]) == Flat(servers) + server.tools && Distinct(Flat(servers + [server]))
    ensures forall t :: t in Flat(servers) ==> t in Flat(servers + [server])
  {
    FlatAppend(servers, [server]);
    assert Flat([server]) == server.tools + Flat([]) == server.tools;
    DistinctJoin(Flat(servers), server.tools);
  }

  /** A tool about to be indexed is under no name yet. */
  lemma NotYetIndexed(before: seq<Tool>, loaded: seq<Tool>, i: nat)
    requires i < |loaded| && Distinct(loaded) && Disjoint(before, loaded)
    ensures loaded[i] !in Named(before + loaded[..i], loaded[i].name)
  {
    NamedMember(before + loaded[..i], loaded[i].name, loaded[i]);
    assert loaded[i] in loaded;
    assert loaded[i] !in before + loaded[..i];
  }

  /** The combined list of the enabled servers, in their order. */
  function Combined(servers: seq<Server>, enabled: seq<string>): seq<Tool> {
    if |enabled| == 0 then []
    else Combined(servers, enabled[..|enabled| - 1]) + ToolsOf(servers, enabled[|enabled| - 1])
  }

  lemma {:induction false} ToolsOfAreFlat(servers: seq<Server>, name: string)
    ensures forall t :: t in ToolsOf(servers, name) ==> t in Flat(servers)
  {
    if servers != [] {
      ToolsOfAreFlat(servers[1..], name);
    }
  }

  /** The servers after a server's tools were stored, in place when it had some already. */
  function Stored(servers: seq<Server>, server: Server): seq<Server> {
    if |servers| == 0 then [server]
    else if servers[0].name == server.name then [server] + servers[1..]
    else [servers[0]] + Stored(servers[1..], server)
  }

  lemma {:induction false} StoredNew(servers: seq<Server>, server: Server)
    requires !HasServer(servers, server.name)
    ensures Stored(servers, server) == servers + [server]
  {
    if servers != [] {
      assert forall i :: 0 <= i < |servers[1..]| ==> servers[1..][i] == servers[i + 1];
      StoredNew(servers[1..], server);
    }
  }

  /** Which tools the servers have after one of them was stored over. */
  lemma {:induction false} StoredOver(servers: seq<Server>, server: Server, t: Tool)
    requires DistinctServers(servers) && Distinct(Flat(servers)) && HasServer(servers, server.name)
    ensures t in Flat(Stored(servers, server))
       <==> t in server.tools || (t in Flat(servers) && t !in ToolsOf(servers, server.name))
  {
    var first, rest := servers[0], servers[1..];
    DistinctParts(first.tools, Flat(rest));
    if first.name == server.name {
      assert Stored(servers, server)[1..] == rest;
    } else {
      assert forall i :: 0 <= i < |rest| ==> rest[i] == servers[i + 1];
      var i :| 0 <= i < |servers| && servers[i].name == server.name;
      assert rest[i - 1].name == server.name;
      StoredOver(rest, server, t);
      assert Stored(servers, server)[1..] == Stored(rest, server);
      ToolsOfAreFlat(rest, server.name);
    }
  }

  /** The enabled servers whose tools are not loaded. */
  function Missing(servers: seq<Server>, enabled: seq<string>): (names: seq<string>)
    ensures forall name :: name in names ==> name in enabled && !HasServer(servers, name)
  {
    if |enabled| == 0 then []
    else Missing(servers, enabled[..|enabled| - 1])
         + (if HasServer(servers, enabled[|enabled| - 1]) then [] else [enabled[|enabled| - 1]])
  }

  /** The servers whose load succeeds, in order. */
  function Loads(names: seq<string>, loads: map<string, seq<Tool>>): seq<Server> {
    if |names| == 0 then []
    else
      var last := names[|names| - 1];
      Loads(names[..|names| - 1], loads) + (if last in loads then [Server(last, loads[last])] else [])
  }

  predicate DistinctStrings(names: seq<string>) {
    forall i, j :: 0 <= i < j < |names| ==> names[i] != names[j]
  }

  /** Tools cloned for one load: new objects, no two loads share one. */
  predicate AreNew(loads: map<string, seq<Tool>>, servers: seq<Server>) {
    && (forall name :: name in loads ==> Distinct(loads[name]) && Disjoint(Flat(servers), loads[name]))
    && (forall a, b :: a in loads && b in loads && a != b ==> Disjoint(loads[a], loads[b]))
  }

  // ---------------------------------------------------------------- sessions

  /** A server has a session exactly when it has tools, no two have the same, and every session
      that was ever registered is still or was told to close, never both. */
  ghost predicate SessionsMatch(sessions: map<string, nat>, servers: seq<Server>, registered: nat,
                                toldToClose: set<nat>) {
    && (forall name :: name in sessions <==> HasServer(servers, name))
    && (forall name :: name in sessions ==> sessions[name] < registered)
    && (forall a, b :: a in sessions && b in sessions && a != b ==> sessions[a] != sessions[b])
    && (forall id :: id in toldToClose ==> id < registered)
    && (forall id: nat :: id < registered ==> (id in toldToClose <==> id !in sessions.Values))
  }

  lemma RegisterKeepsSessions(sessions: map<string, nat>, servers: seq<Server>, registered: nat, toldToClose: set<nat>,
                              server: Server)
    requires SessionsMatch(sessions, servers, registered, toldToClose) && !HasServer(servers, server.name)
    ensures SessionsMatch(sessions[server.name := registered], servers + [server], registered + 1, toldToClose)
  {
    hide HasServer;
    HasServerAppend(servers, server);
    OneSessionMore(sessions, server.name, registered);
  }

  lemma CloseKeepsSessions(sessions: map<string, nat>, servers: seq<Server>, registered: nat, toldToClose: set<nat>,
                           name: string)
    requires SessionsMatch(sessions, servers, registered, toldToClose) && DistinctServers(servers)
         && Distinct(Flat(servers))
    ensures SessionsMatch(sessions - {name}, Dropped(servers, name), registered,
                          toldToClose + (if name in sessions then {sessions[name]} else {}))
  {
    hide HasServer, Dropped, Flat, DistinctServers;
    DroppedServers(servers, name);
    HasServerDropped(servers, name);
    OneSessionLess(sessions, name);
    var less, closed := sessions - {name}, toldToClose + (if name in sessions then {sessions[name]} else {});
    forall id: nat | id < registered
      ensures id in closed <==> id !in less.Values
    {
      assert name in sessions ==> sessions[name] in sessions.Values;
    }
  }

  // ---------------------------------------------------------------- the manager

  /** How a reload through a new session ends. */
  datatype Reload = Loaded(tools: seq<Tool>) | GaveNothing | RaisedError

  class MCPManager {
    var serverTools: seq<Server>
    var toolIndex: map<string, seq<Tool>>
    var tools: seq<Tool>
    // the session of each server; sessions are numbered in the order they are registered
    var sessionContexts: map<string, nat>
    var registered: nat
    var toldToClose: set<nat>

    /** The index is exactly the index of the servers' tools, and the combined list holds no tool
        that no server has. */
    ghost predicate IndexValid()
      reads this
    {
      && DistinctServers(serverTools)
      && Distinct(Flat(serverTools))
      && Indexes(toolIndex, Flat(serverTools))
      && (forall t :: t in tools ==> t in Flat(serverTools))
    }

    /** What every operation keeps. */
    ghost predicate Valid()
      reads this
    {
      IndexValid() && SessionsMatch(sessionContexts, serverTools, registered, toldToClose)
    }

    constructor ()
      ensures Valid() && serverTools == [] && tools == [] && registered == 0
    {
      serverTools, toolIndex, tools := [], map[], [];
      sessionContexts, registered, toldToClose := map[], 0, {};
    }

    /** Stores the tools of a server. The tools it had before stay in the index, although no server
        has them any more, so the index is exact afterwards if and only if there were none. */
    method IndexServerTools(serverName: string, loaded: seq<Tool>)
      requires IndexValid() && Distinct(loaded) && Disjoint(Flat(serverTools), loaded)
      modifies this`serverTools, this`toolIndex
      ensures serverTools == Stored(old(serverTools), Server(serverName, loaded))
      ensures Indexes(toolIndex, old(Flat(serverTools)) + loaded)
      ensures !HasServer(old(serverTools), serverName)
           ==> IndexValid() && serverTools == old(serverTools) + [Server(serverName, loaded)]
      ensures HoldsExactly(toolIndex, Flat(serverTools)) <==> ToolsOf(old(serverTools), serverName) == []
    {
      hide Named, Flat, Stored, ToolsOf, HasServer;
      ghost var before, server := Flat(serverTools), Server(serverName, loaded);
      StoreIs(serverTools, server, before);
      serverTools := Stored(serverTools, Server(serverName, loaded));
      assert before + loaded[..0] == before;
      for i := 0 to |loaded|
        invariant serverTools == Stored(old(serverTools), server)
        invariant Indexes(toolIndex, before + loaded[..i])
      {
        var tool := loaded[i];
        ghost var soFar := before + loaded[..i];
        IndexHasName(toolIndex, soFar, tool.name);
        var indexed := if tool.name in toolIndex then toolIndex[tool.name] else [];
        IndexOneMore(toolIndex, soFar, tool);
        NotYetIndexed(before, loaded, i);
        if tool !in indexed {
          toolIndex := toolIndex[tool.name := indexed + [tool]];
        }
        assert before + loaded[..i + 1] == soFar + [tool];
      }
      assert before + loaded[..|loaded|] == before + loaded;
      StoredIsExactIff(old(serverTools), server, toolIndex);
    }

    method DropServerTools(serverName: string)
      requires IndexValid()
      modifies this`serverTools, this`toolIndex, this`tools
      ensures IndexValid()
      ensures serverTools == Dropped(old(serverTools), serverName)
      ensures tools == Without(old(tools), ToolsOf(old(serverTools), serverName))
    {
      hide Without, Named, Flat, Dropped, ToolsOf;
      DroppedServers(serverTools, serverName);
      ghost var before := Flat(serverTools);
      var removed := ToolsOf(serverTools, serverName);
      serverTools := Dropped(serverTools, serverName);
      assert removed[..0] == [];
      WithoutNone(before, []);
      for i := 0 to |removed|
        invariant serverTools == Dropped(old(serverTools), serverName) && tools == old(tools)
        invariant Indexes(toolIndex, Without(before, removed[..i]))
      {
        var tool := removed[i];
        IndexOneLess(toolIndex, Without(before, removed[..i]), tool);
        if tool.name in toolIndex {
          var left := Without(toolIndex[tool.name], [tool]);
          if left == [] {
            toolIndex := toolIndex - {tool.name};
          } else {
            toolIndex := toolIndex[tool.name := left];
          }
        }
        WithoutOneMore(before, removed[..i], tool);
        assert removed[..i + 1] == removed[..i] + [tool];
      }
      assert removed[..|removed|] == removed;
      forall t
        ensures t in Without(old(tools), removed) <==> t in old(tools) && t !in removed
      {
        WithoutMember(old(tools), removed, t);
      }
      if removed == [] {
        WithoutNone(tools, removed);
      } else {
        tools := Without(tools, removed);
      }
    }

    /** The success of `get_server_tools`: register the session, then store the tools. */
    method RegisterServer(serverName: string, loaded: seq<Tool>)
      requires Valid() && !HasServer(serverTools, serverName)
      requires Distinct(loaded) && Disjoint(Flat(serverTools), loaded)
      modifies this
      ensures Valid() && tools == old(tools) && toldToClose == old(toldToClose) && registered == old(registered) + 1
      ensures serverTools == old(serverTools) + [Server(serverName, loaded)]
      ensures sessionContexts == old(sessionContexts)[serverName := old(registered)]
    {
      hide Flat, Named, Indexes, SessionsMatch;
      RegisterKeepsSessions(sessionContexts, serverTools, registered, toldToClose, Server(serverName, loaded));
      sessionContexts, registered := sessionContexts[serverName := registered], registered + 1;
      IndexServerTools(serverName, loaded);
    }

    /** Tell the session of a server to close, if it has one, and forget its tools: what removing
        and disabling a server do, and what reconnecting it begins with. */
    method CloseServer(serverName: string)
      requires Valid()
      modifies this
      ensures Valid() && registered == old(registered)
      ensures serverTools == Dropped(old(serverTools), serverName)
      ensures tools == Without(old(tools), ToolsOf(old(serverTools), serverName))
      ensures sessionContexts == old(sessionContexts) - {serverName}
      ensures toldToClose == old(toldToClose)
                             + (if serverName in old(sessionContexts) then {old(sessionContexts)[serverName]} else {})
    {
      hide Flat, Named, Indexes, Dropped, ToolsOf, Without, SessionsMatch;
      CloseKeepsSessions(sessionContexts, serverTools, registered, toldToClose, serverName);
      if serverName in sessionContexts {
        toldToClose := toldToClose + {sessionContexts[serverName]};
        sessionContexts := sessionContexts - {serverName};
      } else {
        assert sessionContexts - {serverName} == sessionContexts && toldToClose + {} == toldToClose;
      }
      DropServerTools(serverName);
    }

    /** `get_tools`. Loads what is missing (a name that is not in `loads` fails to load), and then
        combines again, unless nothing was missing and there is a combined list. */
    method GetTools(enabled: seq<string>, loads: map<string, seq<Tool>>)
      requires Valid() && DistinctStrings(enabled) && AreNew(loads, serverTools)
      modifies this
      ensures Valid()
      ensures var missing := Missing(old(serverTools), enabled);
        && serverTools == old(serverTools) + Loads(missing, loads)
        && tools == (if missing == [] && old(tools) != [] then old(tools) else Combined(serverTools, enabled))
      ensures toldToClose == old(toldToClose)
    {
      hide Flat, Named, Indexes, HasServer, Combined, SessionsMatch, Distinct, Disjoint, DistinctServers;
      hide AreNew, DistinctStrings;
      hide Loads;
      var missing := MissingServers(enabled);
      MissingIsDistinct(serverTools, enabled);
      ghost var before := serverTools;
      NoLoads(missing, loads);
      for i := 0 to |missing|
        invariant Valid() && serverTools == before + Loads(missing[..i], loads)
        invariant tools == old(tools) && toldToClose == old(toldToClose)
      {
        LoadsNext(before, missing, i, loads);
        if missing[i] in loads {
          LoadIsNew(before, missing, i, loads);
          RegisterServer(missing[i], loads[missing[i]]);
        }
      }
      assert missing[..|missing|] == missing;
      if missing != [] || tools == [] {
        RebuildCombined(enabled);
      }
    }

    method MissingServers(enabled: seq<string>) returns (missing: seq<string>)
      ensures missing == Missing(serverTools, enabled)
    {
      missing := [];
      for i := 0 to |enabled|
        invariant missing == Missing(serverTools, enabled[..i])
      {
        assert enabled[..i + 1][..i] == enabled[..i];
        if !HasServer(serverTools, enabled[i]) {
          missing := missing + [enabled[i]];
        }
      }
      assert enabled[..|enabled|] == enabled;
    }

    /** The end of `get_tools` and of `reconnect_server`. */
    method RebuildCombined(enabled: seq<string>)
      requires Valid()
      modifies this`tools
      ensures Valid()
      ensures tools == Combined(serverTools, enabled)
    {
      var combined: seq<Tool> := [];
      for i := 0 to |enabled|
        invariant combined == Combined(serverTools, enabled[..i])
        invariant forall t :: t in combined ==> t in Flat(serverTools)
      {
        assert enabled[..i + 1][..i] == enabled[..i];
        ToolsOfAreFlat(serverTools, enabled[i]);
        combined := combined + ToolsOf(serverTools, enabled[i]);
      }
      assert enabled[..|enabled|] == enabled;
      tools := combined;
    }

    /** Tell every session to close and forget everything. */
    method Cleanup()
      requires Valid()
      modifies this
      ensures Valid() && serverTools == [] && toolIndex == map[] && tools == [] && sessionContexts == map[]
      ensures registered == old(registered) && forall id: nat :: id in toldToClose <==> id < registered
    {
      toldToClose := toldToClose + sessionContexts.Values;
      sessionContexts := map[];
      tools := [];
      serverTools := [];
      toolIndex := map[];
    }

    /** Close the server, load it afresh through a new session, combine again. If the load raises,
        the combined list is not made anew: it has lost the server's tools, and gains none. */
    method ReconnectServer(serverName: string, reload: Reload, enabled: seq<string>)
      requires Valid()
      requires reload.Loaded? ==> Distinct(reload.tools) && Disjoint(Flat(serverTools), reload.tools)
      modifies this
      ensures Valid()
      ensures serverTools == Dropped(old(serverTools), serverName)
           + (if reload.Loaded? then [Server(serverName, reload.tools)] else [])
      ensures tools == (if reload.RaisedError? then Without(old(tools), ToolsOf(old(serverTools), serverName))
                        else Combined(serverTools, enabled))
      ensures sessionContexts
           == if reload.Loaded? then old(sessionContexts)[serverName := old(registered)]
              else old(sessionContexts) - {serverName}
      ensures toldToClose == old(toldToClose)
                             + (if serverName in old(sessionContexts) then {old(sessionContexts)[serverName]} else {})
    {
      hide Indexes, Named, Without, SessionsMatch, DistinctServers, Combined, ToolsOf;
      DroppedServers(serverTools, serverName);
      ghost var before := sessionContexts;
      CloseServer(serverName);
      if reload.Loaded? {
        RegisterServer(serverName, reload.tools);
        assert (before - {serverName})[serverName := old(registered)] == before[serverName := old(registered)];
      }
      if !reload.RaisedError? {
        RebuildCombined(enabled);
      }
    }
  }

  lemma HasServerAppend(servers: seq<Server>, server: Server)
    ensures forall name :: HasServer(servers + [server], name) <==> HasServer(servers, name) || name == server.name
  {
    var more := servers + [server];
    assert more[|servers|] == server;
    forall name
      ensures HasServer(more, name) <==> HasServer(servers, name) || name == server.name
    {
      if i :| 0 <= i < |servers| && servers[i].name == name {
        assert more[i].name == name;
      }
    }
  }

  lemma {:induction false} HasServerDropped(servers: seq<Server>, gone: string)
    requires DistinctServers(servers)
    ensures forall name :: HasServer(Dropped(servers, gone), name) <==> HasServer(servers, name) && name != gone
    decreases |servers|
  {
    if servers != [] {
      var first, rest := servers[0], servers[1..];
      assert forall i :: 0 <= i < |rest| ==> rest[i] == servers[i + 1];
      HasServerDropped(rest, gone);
      HasServerCons(first, rest);
      HasServerCons(first, Dropped(rest, gone));
      assert servers == [first] + rest;
      if first.name == gone {
        assert forall name :: HasServer(rest, name) ==> name != gone;
      }
    }
  }

  lemma HasServerCons(first: Server, rest: seq<Server>)
    ensures forall name :: HasServer([first] + rest, name) <==> name == first.name || HasServer(rest, name)
  {
    var all := [first] + rest;
    assert all[0] == first;
    forall name
      ensures HasServer(all, name) <==> name == first.name || HasServer(rest, name)
    {
      if i :| 0 <= i < |rest| && rest[i].name == name {
        assert all[i + 1].name == name;
      }
    }
  }

  lemma OneSessionMore(sessions: map<string, nat>, name: string, id: nat)
    requires name !in sessions
    ensures sessions[name := id].Values == sessions.Values + {id}
  {
    var more := sessions[name := id];
    forall i
      ensures i in more.Values <==> i in sessions.Values + {id}
    {
      if i in sessions.Values {
        var n :| n in sessions && sessions[n] == i;
        assert more[n] == i;
      }
      assert more[name] == id;
    }
  }

  lemma OneSessionLess(sessions: map<string, nat>, name: string)
    requires forall a, b :: a in sessions && b in sessions && a != b ==> sessions[a] != sessions[b]
    ensures (sessions - {name}).Values == sessions.Values - (if name in sessions then {sessions[name]} else {})
  {
    var less := sessions - {name};
    forall i | i in sessions.Values
      ensures i in less.Values <==> !(name in sessions && sessions[name] == i)
    {
      var n :| n in sessions && sessions[n] == i;
      assert n != name ==> n in less && less[n] == i;
    }
    assert forall n :: n in less ==> n in sessions && less[n] == sessions[n];
  }

  /** What storing a server's tools makes of the servers and their tools. */
  lemma StoreIs(servers: seq<Server>, server: Server, before: seq<Tool>)
    requires DistinctServers(servers) && Distinct(Flat(servers)) && before == Flat(servers)
    requires Distinct(server.tools) && Disjoint(before, server.tools)
    ensures var after := Stored(servers, server);
      && (!HasServer(servers, server.name) ==>
            after == servers + [server] && DistinctServers(after) && Flat(after) == before + server.tools
              && Distinct(Flat(after)))
      && (forall t :: t in ToolsOf(servers, server.name) ==> t !in Flat(after))
  {
    hide Flat, Stored;
    if !HasServer(servers, server.name) {
      StoredNew(servers, server);
      ServersOneMore(servers, server);
      ToolsOfAbsent(servers, server.name);
    } else {
      ToolsOfAreFlat(servers, server.name);
      forall t | t in ToolsOf(servers, server.name)
        ensures t !in Flat(Stored(servers, server))
      {
        StoredOver(servers, server, t);
      }
    }
  }

  lemma IndexedIsExact(index: map<string, seq<Tool>>, tools: seq<Tool>)
    requires Indexes(index, tools)
    ensures HoldsExactly(index, tools)
  {
    forall name, t | name in index
      ensures t in index[name] <==> t in tools && t.name == name
    {
      NamedMember(tools, name, t);
    }
  }

  /** An index of the tools of before and of the stored ones is exact for the servers afterwards, if
      and only if the server had none before. */
  lemma StoredIsExactIff(servers: seq<Server>, server: Server, index: map<string, seq<Tool>>)
    requires DistinctServers(servers) && Distinct(Flat(servers))
    requires Distinct(server.tools) && Disjoint(Flat(servers), server.tools)
    requires Indexes(index, Flat(servers) + server.tools)
    ensures HoldsExactly(index, Flat(Stored(servers, server))) <==> ToolsOf(servers, server.name) == []
  {
    hide Indexes, Named, Flat, Stored, ToolsOf, HasServer;
    var gone, after := ToolsOf(servers, server.name), Flat(Stored(servers, server));
    IndexedIsExact(index, Flat(servers) + server.tools);
    StoreIs(servers, server, Flat(servers));
    ToolsOfAreFlat(servers, server.name);
    if !HasServer(servers, server.name) {
      ToolsOfAbsent(servers, server.name);
    } else {
      forall t
        ensures t in after <==> t in server.tools || (t in Flat(servers) && t !in gone)
      {
        StoredOver(servers, server, t);
      }
      if gone == [] {
        SameTools(index, Flat(servers) + server.tools, after);
      } else {
        var t := gone[0];
        assert t in gone && t in Flat(servers) + server.tools;
        assert t.name in index && t in index[t.name] && t !in after;
      }
    }
  }

  lemma SameTools(index: map<string, seq<Tool>>, a: seq<Tool>, b: seq<Tool>)
    requires forall t :: t in a <==> t in b
    ensures HoldsExactly(index, a) <==> HoldsExactly(index, b)
  {
  }

  /** Two loads of one server that overlap: the second stores over the first, whose tool stays. */
  lemma StoredOverStays(first: Tool, second: Tool, index: map<string, seq<Tool>>)
    requires first != second && Indexes(index, [first] + [second])
    ensures var servers := [Server("web", [first])];
            var after := Stored(servers, Server("web", [second]));
      && after == [Server("web", [second])] && first.name in index && first in index[first.name]
        && first !in Flat(after)
  {
    var after := [Server("web", [second])];
    assert [Server("web", [first])][1..] == [] && after[1..] == [];
    assert Flat(after) == [second] + Flat([]) == [second];
    IndexedIsExact(index, [first] + [second]);
    assert ([first] + [second])[0] == first;
  }

  lemma {:induction false} MissingIsDistinct(servers: seq<Server>, enabled: seq<string>)
    requires DistinctStrings(enabled)
    ensures DistinctStrings(Missing(servers, enabled))
  {
    hide HasServer;
    if enabled != [] {
      var init, last := enabled[..|enabled| - 1], enabled[|enabled| - 1];
      MissingIsDistinct(servers, init);
      assert last !in init;
    }
  }

  /** The next missing server is not there yet, and its tools are new. */
  lemma LoadIsNew(before: seq<Server>, missing: seq<string>, i: nat, loads: map<string, seq<Tool>>)
    requires i < |missing| && DistinctStrings(missing) && missing[i] in loads && AreNew(loads, before)
    requires forall name :: name in missing ==> !HasServer(before, name)
    ensures var servers := before + Loads(missing[..i], loads);
            !HasServer(servers, missing[i]) && Distinct(loads[missing[i]]) && Disjoint(Flat(servers), loads[missing[i]])
  {
    hide HasServer, Flat;
    LoadsAre(missing[..i], loads);
    var more := Loads(missing[..i], loads);
    FlatAppend(before, more);
    HasServerOfBoth(before, more, missing[i]);
    assert missing[i] in missing;
    LoadsAreDisjoint(missing[..i], loads, missing[i]);
  }

  lemma NoLoads(names: seq<string>, loads: map<string, seq<Tool>>)
    ensures Loads(names[..0], loads) == []
  {
  }

  lemma LoadsNext(before: seq<Server>, names: seq<string>, i: nat, loads: map<string, seq<Tool>>)
    requires i < |names|
    ensures before + Loads(names[..i + 1], loads)
         == (before + Loads(names[..i], loads))
           + (if names[i] in loads then [Server(names[i], loads[names[i]])] else [])
    ensures (before + Loads(names[..i], loads)) + [] == before + Loads(names[..i], loads)
  {
    assert names[..i + 1][..i] == names[..i];
  }

  lemma HasServerOfBoth(a: seq<Server>, b: seq<Server>, name: string)
    ensures HasServer(a + b, name) <==> HasServer(a, name) || HasServer(b, name)
  {
    if i :| 0 <= i < |a| && a[i].name == name {
      assert (a + b)[i].name == name;
    }
    if i :| 0 <= i < |b| && b[i].name == name {
      assert (a + b)[|a| + i].name == name;
    }
  }

  lemma {:induction false} LoadsAre(names: seq<string>, loads: map<string, seq<Tool>>)
    ensures forall name :: HasServer(Loads(names, loads), name) ==> name in names
  {
    if names != [] {
      var init, last := names[..|names| - 1], names[|names| - 1];
      LoadsAre(init, loads);
      if last in loads {
        HasServerAppend(Loads(init, loads), Server(last, loads[last]));
      }
      assert names == init + [last];
    }
  }

  lemma {:induction false} LoadsAreDisjoint(names: seq<string>, loads: map<string, seq<Tool>>, name: string)
    requires name in loads && name !in names
    requires forall a, b :: a in loads && b in loads && a != b ==> Disjoint(loads[a], loads[b])
    ensures Disjoint(Flat(Loads(names, loads)), loads[name])
  {
    if names != [] {
      var init, last := names[..|names| - 1], names[|names| - 1];
      LoadsAreDisjoint(init, loads, name);
      if last in loads {
        assert last in names && last != name;
        var server := Server(last, loads[last]);
        FlatAppend(Loads(init, loads), [server]);
        assert Flat([server]) == server.tools + Flat([]) == server.tools;
      } else {
        assert Loads(names, loads) == Loads(init, loads);
      }
    }
  }

  /** What the manager's invariant means for a reader of the index: under a name exactly the
      tools of that name any server has, none of them twice. */
  lemma IndexIsExact(servers: seq<Server>, index: map<string, seq<Tool>>, name: string, t: Tool)
    requires Distinct(Flat(servers)) && Indexes(index, Flat(servers))
    ensures (name in index && t in index[name]) <==> (t in Flat(servers) && t.name == name)
    ensures name in index ==> Distinct(index[name]) && index[name] != []
  {
    NamedMember(Flat(servers), name, t);
    NamedDistinct(Flat(servers), name);
  }

  /** Dropping a server forgets its tools by identity everywhere and leaves every other server
      and its index entries as they were, equal names included. */
  lemma DropLeavesOthersAlone(servers: seq<Server>, index: map<string, seq<Tool>>, index': map<string, seq<Tool>>,
                              gone: string, name: string)
    requires DistinctServers(servers) && Distinct(Flat(servers)) && Indexes(index, Flat(servers))
    requires Indexes(index', Flat(Dropped(servers, gone)))
    ensures forall s :: s in Dropped(servers, gone) <==> s in servers && s.name != gone
    ensures (if name in index' then index'[name] else [])
         == Without(if name in index then index[name] else [], ToolsOf(servers, gone))
  {
    DroppedServers(servers, gone);
    var rest := Flat(Dropped(servers, gone));
    NamedWithout(Flat(servers), name, ToolsOf(servers, gone));
    IndexHasName(index, Flat(servers), name);
    IndexHasName(index', rest, name);
  }
}
