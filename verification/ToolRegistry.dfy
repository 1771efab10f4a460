/** app/ai/deferred_tool_state.py: the process-wide registry of loaded tools, on values.

    Two tables of pools, for server and for device tools, with a rate-limited sweep and a cap on
    the number of pools above them.

    What each operation does is written here as a function of the registry and the clock;
    module DeferredToolState has the class that does it in place. */
module ToolRegistry {
  import opened Options
  import opened PythonText
  import opened ToolScope

  // ---------------------------------------------------------------- keys, bindings, tables

  datatype ServerKey = ServerKey(conversation: string, agent: string)
  datatype ClientKey = ClientKey(conversation: string, agent: string, device: string, session: string)

  datatype ServerBinding = ServerBinding(toolName: string, serverName: string, generation: int)
  datatype ClientBinding = ClientBinding(serverName: string, deviceId: string, catalogVersion: int,
                                         toolInstanceId: string)

  /** One item of a table of pools, a dict kept in insertion order. */
  datatype Row<K, B> = Row(key: K, scope: Scope<B>)

  /** `now` is the next reading of the clock. */
  datatype Registry = Registry(
    server: seq<Row<ServerKey, ServerBinding>>, client: seq<Row<ClientKey, ClientBinding>>, lastSweep: real, now: nat)

  datatype Settings = Settings(ttl: int, maxTools: int, maxScopes: int)

  const SWEEP_MIN_INTERVAL_SECONDS: real := 60.0

  predicate Given(s: Option<string>) {
    s.Some? && s.value != ""
  }

  function OrElse(s: Option<string>, default: string): string {
    if Given(s) then s.value else default
  }

  /** No key without a conversation: nothing is stored and nothing is read. */
  function KeyFor(conversation: Option<string>, agent: Option<string>): Option<ServerKey> {
    if !Given(conversation) then None else Some(ServerKey(conversation.value, OrElse(agent, "default")))
  }

  function ClientKeyFor(conversation: Option<string>, agent: Option<string>, device: Option<string>,
                        session: Option<string>): Option<ClientKey> {
    if !Given(conversation) then None
    else Some(ClientKey(conversation.value, OrElse(agent, "default"), OrElse(device, ""), OrElse(session, "")))
  }

  function RowIndex<K(==), B>(rows: seq<Row<K, B>>, key: K): (i: int)
    ensures -1 <= i < |rows|
    ensures i >= 0 ==> rows[i].key == key
    ensures forall j :: 0 <= j < (if i >= 0 then i else |rows|) ==> rows[j].key != key
  {
    if |rows| == 0 then -1
    else
      var i := RowIndex(rows[..|rows| - 1], key);
      if i >= 0 then i else if rows[|rows| - 1].key == key then |rows| - 1 else -1
  }

  /** The tools under a key. */
  function PoolOf<K(==), B>(rows: seq<Row<K, B>>, key: K): seq<Entry<B>> {
    var i := RowIndex(rows, key);
    if i < 0 then [] else rows[i].scope.loaded
  }

  function WithScope<K, B>(rows: seq<Row<K, B>>, i: int, scope: Scope<B>): seq<Row<K, B>>
    requires i < |rows|
  {
    if i < 0 then rows else rows[i := rows[i].(scope := scope)]
  }

  // ---------------------------------------------------------------- staleness

  function ServerStale(generation: int): ServerBinding -> bool {
    (b: ServerBinding) => b.generation != generation
  }

  /** An unknown version on either side never counts as stale. */
  function ClientStale(current: int): ClientBinding -> bool {
    (b: ClientBinding) => current > 0 && b.catalogVersion > 0 && b.catalogVersion != current
  }

  // ---------------------------------------------------------------- sweep and cap

  datatype Sweep<K, B> = Sweep(rows: seq<Row<K, B>>, now: nat)

  function CleanedScope<B>(s: Scope<B>, ttl: int, stale: B -> bool, clock: Readings, now: nat): Scope<B> {
    s.(loaded := Cleaned(s.loaded, ttl, stale, clock, now))
  }

  /** Clean every pool in turn and drop those that are abandoned. */
  function SweptRows<K, B>(rows: seq<Row<K, B>>, ttl: int, stale: B -> bool, clock: Readings, now: nat): Sweep<K, B> {
    if |rows| == 0 then Sweep([], now)
    else
      var before, last := SweptRows(rows[..|rows| - 1], ttl, stale, clock, now), rows[|rows| - 1];
      var cleaned := CleanedScope(last.scope, ttl, stale, clock, before.now);
      var afterwards := before.now + CleanupReads(|last.scope.loaded|, ttl);
      Sweep(before.rows + (if IsAbandoned(cleaned, ttl, clock(afterwards)) then [] else [Row(last.key, cleaned)]),
            afterwards + AbandonedReads(cleaned, ttl))
  }

  function Swept(r: Registry, cfg: Settings, generation: int, clock: Readings): Registry {
    var now := clock(r.now);
    if now - r.lastSweep < SWEEP_MIN_INTERVAL_SECONDS then r.(now := r.now + 1)
    else
      var server := SweptRows(r.server, cfg.ttl, ServerStale(generation), clock, r.now + 1);
      var client := SweptRows(r.client, cfg.ttl, ClientStale(0), clock, server.now);
      Registry(server.rows, client.rows, now, client.now)
  }

  /** `min(table, key=last_active)`: the first of the least recently active pools. */
  function QuietIndex<K, B>(rows: seq<Row<K, B>>): (i: nat)
    requires rows != []
    ensures i < |rows|
    ensures forall j :: 0 <= j < |rows| ==> rows[i].scope.lastActive <= rows[j].scope.lastActive
    ensures forall j :: 0 <= j < i ==> rows[i].scope.lastActive < rows[j].scope.lastActive
  {
    if |rows| == 1 then 0
    else
      var i := QuietIndex(rows[..|rows| - 1]);
      if rows[|rows| - 1].scope.lastActive < rows[i].scope.lastActive then |rows| - 1 else i
  }

  function MaxScopes(cfg: Settings): (n: nat)
    ensures n >= 1
  {
    if cfg.maxScopes >= 1 then cfg.maxScopes else 1
  }

  function CappedRows<K, B>(rows: seq<Row<K, B>>, max: nat): (r: seq<Row<K, B>>)
    ensures |r| <= max && |r| <= |rows|
    decreases |rows|
  {
    if |rows| <= max then rows else CappedRows(RemoveAt(rows, QuietIndex(rows)), max)
  }

  function NewScope<B>(clock: Readings, now: nat): Scope<B> {
    Scope(clock(now), clock(now + 1), [])
  }

  // ---------------------------------------------------------------- loading

  datatype ToolReference = ToolReference(toolName: string, serverName: string, callName: Option<string>)

  function ServerItem(ref: ToolReference, generation: int): Item<ServerBinding> {
    Item(OrElse(ref.callName, ref.toolName), ServerBinding(ref.toolName, ref.serverName, generation))
  }

  function ServerItems(refs: seq<ToolReference>, generation: int): (items: seq<Item<ServerBinding>>)
    ensures |items| == |refs|
    ensures forall i :: 0 <= i < |refs| ==> items[i] == ServerItem(refs[i], generation)
  {
    if |refs| == 0 then [] else ServerItems(refs[..|refs| - 1], generation) + [ServerItem(refs[|refs| - 1], generation)]
  }

  /** The references that were taken. */
  function Taken<T>(refs: seq<T>, oks: seq<bool>): seq<T>
    requires |oks| == |refs|
  {
    if |refs| == 0 then []
    else Taken(refs[..|refs| - 1], oks[..|refs| - 1]) + (if oks[|refs| - 1] then [refs[|refs| - 1]] else [])
  }

  /** How a table is filled: the TTL and what counts as stale, the capacity of a pool, and the
      cap on the number of pools. */
  datatype Rules<!B> = Rules(ttl: int, stale: B -> bool, maxTools: int, maxScopes: nat)

  /** The pool of a key, created and capped when there is none. The cap may have dropped it again:
      then `index` is negative, and what is written to the pool is lost. */
  datatype Opened<K, B> = Opened(rows: seq<Row<K, B>>, scope: Scope<B>, index: int, isNew: bool, now: nat)

  function Open<K(==), B>(rows: seq<Row<K, B>>, key: K, maxScopes: nat, clock: Readings, now: nat): (o: Opened<K, B>)
    ensures -1 <= o.index < |o.rows|
    ensures now <= o.now
  {
    var i := RowIndex(rows, key);
    if i >= 0 then Opened(rows, rows[i].scope, i, false, now)
    else
      var scope := NewScope<B>(clock, now);
      var capped := CappedRows(rows + [Row(key, scope)], maxScopes);
      Opened(capped, scope, RowIndex(capped, key), true, now + 2)
  }

  /** The opened pool after its cleanup, and the next clock reading: what loading starts from. */
  function AtLoad<K(==), B>(rows: seq<Row<K, B>>, key: K, rules: Rules<B>, clock: Readings, now: nat): (Scope<B>, nat) {
    var o := Open(rows, key, rules.maxScopes, clock, now);
    (CleanedScope(o.scope, rules.ttl, rules.stale, clock, o.now), o.now + CleanupReads(|o.scope.loaded|, rules.ttl))
  }

  /** What loading leaves of the pool. */
  function Loading<K(==), B>(rows: seq<Row<K, B>>, key: K, items: seq<Item<B>>, rules: Rules<B>, clock: Readings,
                             now: nat)
    : (load: Load<B>)
    ensures |load.oks| == |items|
  {
    var (scope, start) := AtLoad(rows, key, rules, clock, now);
    AddedAll(scope, items, rules.maxTools, clock, start)
  }

  /** What it leaves of the table. */
  function Filled<K(==), B>(rows: seq<Row<K, B>>, key: K, items: seq<Item<B>>, rules: Rules<B>, clock: Readings,
                            now: nat)
    : seq<Row<K, B>>
  {
    var o := Open(rows, key, rules.maxScopes, clock, now);
    WithScope(o.rows, o.index, Loading(rows, key, items, rules, clock, now).scope)
  }

  function ServerRules(cfg: Settings, generation: int, maxTools: int): Rules<ServerBinding> {
    Rules(cfg.ttl, ServerStale(generation), maxTools, MaxScopes(cfg))
  }

  function ClientRules(cfg: Settings, catalogVersion: int, maxTools: int): Rules<ClientBinding> {
    Rules(cfg.ttl, ClientStale(catalogVersion), maxTools, MaxScopes(cfg))
  }

  /** A new pool in one table caps the other one too. */
  function CappedBeside<K, B>(rows: seq<Row<K, B>>, isNew: bool, cfg: Settings): seq<Row<K, B>> {
    if isNew then CappedRows(rows, MaxScopes(cfg)) else rows
  }

  function Autoloaded(r: Registry, cfg: Settings, generation: int, key: Option<ServerKey>, refs: seq<ToolReference>,
                      maxTools: int, clock: Readings): (Registry, seq<ToolReference>) {
    if key.None? then (r, [])
    else
      var swept, rules := Swept(r, cfg, generation, clock), ServerRules(cfg, generation, maxTools);
      var items := ServerItems(refs, generation);
      var load := Loading(swept.server, key.value, items, rules, clock, swept.now);
      var isNew := RowIndex(swept.server, key.value) < 0;
      (swept.(server := Filled(swept.server, key.value, items, rules, clock, swept.now),
              client := CappedBeside(swept.client, isNew, cfg), now := load.now),
       Taken(refs, load.oks))
  }

  datatype ClientReference = ClientReference(
    toolName: string, serverName: string, deviceId: string, sessionId: string, catalogVersion: Option<int>,
    toolInstanceId: string)

  function ClientItem(ref: ClientReference, device: string, catalogVersion: int): Item<ClientBinding> {
    Item(ref.toolName,
         ClientBinding(ref.serverName, if ref.deviceId != "" then ref.deviceId else device,
                       if ref.catalogVersion.Some? then ref.catalogVersion.value else catalogVersion,
                       ref.toolInstanceId))
  }

  function ClientItems(refs: seq<ClientReference>, device: string,
                       catalogVersion: int): (items: seq<Item<ClientBinding>>)
    ensures |items| == |refs|
    ensures forall i :: 0 <= i < |refs| ==> items[i] == ClientItem(refs[i], device, catalogVersion)
  {
    if |refs| == 0 then []
    else
      ClientItems(refs[..|refs| - 1], device, catalogVersion)
      + [ClientItem(refs[|refs| - 1], device, catalogVersion)]
  }

  function FirstSession(refs: seq<ClientReference>): Option<string> {
    if |refs| == 0 then None
    else if refs[0].sessionId != "" then Some(refs[0].sessionId)
    else FirstSession(refs[1..])
  }

  /** The caller's session, else the first one a reference names, else the device's active one. */
  function EffectiveSession(session: Option<string>, refs: seq<ClientReference>,
                            active: Option<string>): Option<string> {
    if Given(session) then session else if FirstSession(refs).Some? then FirstSession(refs) else active
  }

  /** The key an autoload of client tools stores under. */
  function AutoloadKey(conversation: Option<string>, agent: Option<string>, device: Option<string>,
                       session: Option<string>,
                       refs: seq<ClientReference>, active: Option<string>): Option<ClientKey> {
    if !Given(device) then None
    else ClientKeyFor(conversation, agent, device, EffectiveSession(session, refs, active))
  }

  function AutoloadedClient(r: Registry, cfg: Settings, generation: int, catalogVersion: int, key: Option<ClientKey>,
                            refs: seq<ClientReference>, maxTools: int, clock: Readings)
    : (Registry, seq<ClientReference>)
  {
    if key.None? then (r, [])
    else
      var swept, rules := Swept(r, cfg, generation, clock), ClientRules(cfg, catalogVersion, maxTools);
      var items := ClientItems(refs, key.value.device, catalogVersion);
      var load := Loading(swept.client, key.value, items, rules, clock, swept.now);
      var isNew := RowIndex(swept.client, key.value) < 0;
      (swept.(client := Filled(swept.client, key.value, items, rules, clock, swept.now),
              server := CappedBeside(swept.server, isNew, cfg), now := load.now),
       Taken(refs, load.oks))
  }

  // ---------------------------------------------------------------- reading

  /** The row of a key whose pool is not empty: an empty pool counts as no pool. */
  function FullRow<K(==), B>(rows: seq<Row<K, B>>, key: Option<K>): (i: int)
    ensures -1 <= i < |rows|
    ensures i >= 0 ==> key.Some? && rows[i].key == key.value && rows[i].scope.loaded != []
  {
    if key.None? then -1
    else
      var i := RowIndex(rows, key.value);
      if i >= 0 && rows[i].scope.loaded != [] then i else -1
  }

  /** Clean the pool of a key, touch it, and say what is left in it. */
  datatype RowRead<K, B> = RowRead(rows: seq<Row<K, B>>, loaded: seq<Entry<B>>, now: nat)

  function ReadRow<K(==), B>(rows: seq<Row<K, B>>, key: Option<K>, ttl: int, stale: B -> bool, clock: Readings,
                             now: nat): RowRead<K, B> {
    var i := FullRow(rows, key);
    if i < 0 then RowRead(rows, [], now)
    else
      var cleaned := CleanedScope(rows[i].scope, ttl, stale, clock, now);
      var later := now + CleanupReads(|rows[i].scope.loaded|, ttl);
      RowRead(WithScope(rows, i, cleaned.(lastActive := clock(later))), cleaned.loaded, later + 1)
  }

  function GotLoaded(r: Registry, cfg: Settings, generation: int, key: Option<ServerKey>, clock: Readings)
    : (Registry, seq<Entry<ServerBinding>>)
  {
    var read := ReadRow(r.server, key, cfg.ttl, ServerStale(generation), clock, r.now);
    (r.(server := read.rows, now := read.now), read.loaded)
  }

  /** Device tools are visible to exactly one device and session; without both, to nobody. */
  function ReadKey(conversation: Option<string>, agent: Option<string>, device: Option<string>, session: Option<string>,
                   active: Option<string>): Option<ClientKey> {
    var effective := if Given(device) && !Given(session) then active else session;
    if !Given(device) || !Given(effective) then None else ClientKeyFor(conversation, agent, device, effective)
  }

  function GotLoadedClient(r: Registry, cfg: Settings, key: Option<ClientKey>, clock: Readings)
    : (Registry, seq<Entry<ClientBinding>>)
  {
    var read := ReadRow(r.client, key, cfg.ttl, ClientStale(0), clock, r.now);
    (r.(client := read.rows, now := read.now), read.loaded)
  }

  /** `mark_tool_used` and the two look-ups of a loaded tool: use it, and say what it is bound to. */
  function Used(r: Registry, key: Option<ServerKey>, toolName: string, clock: Readings)
    : (Registry, Option<ServerBinding>)
  {
    var i := FullRow(r.server, key);
    if i < 0 then (r, None)
    else
      var s := r.server[i].scope;
      var step := Got(s, toolName, clock, r.now);
      (r.(server := WithScope(r.server, i, step.scope), now := step.now),
       if step.ok then Some(s.loaded[IndexOf(s.loaded, toolName)].binding) else None)
  }

  // ---------------------------------------------------------------- clearing

  /** The keys of a conversation, or of one of its agents. */
  function ServerKeysOf(conversation: string, agent: Option<string>): ServerKey -> bool {
    (key: ServerKey) => key.conversation == conversation && (Given(agent) ==> key.agent == agent.value)
  }

  function ClientKeysOf(conversation: string, agent: Option<string>): ClientKey -> bool {
    (key: ClientKey) => key.conversation == conversation && (Given(agent) ==> key.agent == agent.value)
  }

  function Without<K, B>(rows: seq<Row<K, B>>, drop: K -> bool): (r: seq<Row<K, B>>)
    ensures |r| <= |rows|
  {
    if |rows| == 0 then []
    else Without(rows[..|rows| - 1], drop) + (if drop(rows[|rows| - 1].key) then [] else [rows[|rows| - 1]])
  }

  function Cleared(r: Registry, conversation: Option<string>, agent: Option<string>): (Registry, nat) {
    if !Given(conversation) then (r, 0)
    else
      var server := Without(r.server, ServerKeysOf(conversation.value, agent));
      var client := Without(r.client, ClientKeysOf(conversation.value, agent));
      (r.(server := server, client := client), (|r.server| - |server|) + (|r.client| - |client|))
  }

  // ---------------------------------------------------------------- snapshot and restore

  datatype ServerEntry = ServerEntry(toolName: string, serverName: string, callName: string, generation: int)
  datatype ClientEntry = ClientEntry(toolName: string, serverName: string, deviceId: string, sessionId: string,
                                     catalogVersion: int, toolInstanceId: string)
  datatype Snapshot = Snapshot(runtimeId: string, serverTools: seq<ServerEntry>, clientTools: seq<ClientEntry>)

  function ServerEntries(loaded: seq<Entry<ServerBinding>>): (r: seq<ServerEntry>)
    ensures |r| == |loaded|
    ensures forall i :: 0 <= i < |loaded| ==>
      r[i] == ServerEntry(loaded[i].binding.toolName, loaded[i].binding.serverName, loaded[i].key,
                          loaded[i].binding.generation)
  {
    if |loaded| == 0 then []
    else
      var e := loaded[|loaded| - 1];
      ServerEntries(loaded[..|loaded| - 1])
        + [ServerEntry(e.binding.toolName, e.binding.serverName, e.key, e.binding.generation)]
  }

  function ClientEntries(loaded: seq<Entry<ClientBinding>>, session: string): (r: seq<ClientEntry>)
    ensures |r| == |loaded|
    ensures forall i :: 0 <= i < |loaded| ==>
      r[i] == ClientEntry(loaded[i].key, loaded[i].binding.serverName, loaded[i].binding.deviceId, session,
                          loaded[i].binding.catalogVersion, loaded[i].binding.toolInstanceId)
  {
    if |loaded| == 0 then []
    else
      var e := loaded[|loaded| - 1];
      ClientEntries(loaded[..|loaded| - 1], session)
      + [ClientEntry(e.key, e.binding.serverName, e.binding.deviceId, session, e.binding.catalogVersion,
                     e.binding.toolInstanceId)]
  }

  /** The server half cleans without touching the pool, the client half also touches it. */
  function SnapshotTaken(r: Registry, cfg: Settings, generation: int, runtimeId: string, key: Option<ServerKey>,
                         clientKey: Option<ClientKey>, clock: Readings): (Registry, Snapshot) {
    var i := FullRow(r.server, key);
    var cleaned := if i < 0 then []
                   else Cleaned(r.server[i].scope.loaded, cfg.ttl, ServerStale(generation), clock, r.now);
    var r1 := if i < 0 then r
              else r.(server := WithScope(r.server, i, r.server[i].scope.(loaded := cleaned)),
                      now := r.now + CleanupReads(|r.server[i].scope.loaded|, cfg.ttl));
    var (r2, clientLoaded) := GotLoadedClient(r1, cfg, clientKey, clock);
    (r2, Snapshot(runtimeId, ServerEntries(cleaned),
                  ClientEntries(clientLoaded, if clientKey.Some? then clientKey.value.session else "")))
  }

  /** The references a snapshot's server entries stand for; blank and outdated ones are dropped. */
  function RestorableServer(entries: seq<ServerEntry>, sameRuntime: bool, generation: int): seq<ToolReference> {
    if |entries| == 0 then []
    else
      var e := entries[|entries| - 1];
      RestorableServer(entries[..|entries| - 1], sameRuntime, generation)
      + if Strip(e.toolName) == "" || Strip(e.serverName) == "" || (sameRuntime && e.generation != generation) then []
        else [ToolReference(Strip(e.toolName), Strip(e.serverName), if e.callName != "" then Some(Strip(e.callName))
                                                                    else None)]
  }

  function RestorableClient(entries: seq<ClientEntry>, device: string, session: Option<string>,
                            catalogVersion: int): seq<ClientReference> {
    if |entries| == 0 then []
    else
      var e := entries[|entries| - 1];
      var entryDevice := Strip(if e.deviceId != "" then e.deviceId else device);
      var entrySession := Strip(e.sessionId);
      RestorableClient(entries[..|entries| - 1], device, session, catalogVersion)
      + if || Strip(e.toolName) == "" || Strip(e.serverName) == ""
           || entryDevice != device
           || (Given(session) && entrySession != "" && entrySession != session.value)
           || (catalogVersion > 0 && e.catalogVersion > 0 && e.catalogVersion != catalogVersion)
        then []
        else [ClientReference(Strip(e.toolName), Strip(e.serverName), entryDevice,
                              if entrySession != "" then entrySession else OrElse(session, ""),
                              Some(e.catalogVersion), e.toolInstanceId)]
  }

  /** The server half of `restore`: what is put back, and how many references were taken. */
  function RestoredServer(r: Registry, cfg: Settings, generation: int, runtimeId: string, key: Option<ServerKey>,
                          snapshot: Snapshot, clock: Readings): (Registry, nat) {
    var refs := RestorableServer(snapshot.serverTools, snapshot.runtimeId == runtimeId, generation);
    var (after, taken) := Autoloaded(r, cfg, generation, key, refs, cfg.maxTools, clock);
    (after, |taken|)
  }

  /** The client half: into the session given, else into the device's active one. */
  function RestoredClient(r: Registry, cfg: Settings, generation: int, runtimeId: string, conversation: Option<string>,
                          agent: Option<string>, device: Option<string>, session: Option<string>,
                          active: Option<string>, catalogVersion: int, snapshot: Snapshot, clock: Readings)
    : (Registry, nat)
  {
    if !Given(device) then (r, 0)
    else
      var effective := if Given(session) then session else active;
      var known := if snapshot.runtimeId == runtimeId then catalogVersion else 0;
      var refs := RestorableClient(snapshot.clientTools, device.value, effective, known);
      if refs == [] then (r, 0)
      else
        var key := AutoloadKey(conversation, agent, device, effective, refs, active);
        var (after, taken) := AutoloadedClient(r, cfg, generation, catalogVersion, key, refs, cfg.maxTools, clock);
        (after, |taken|)
  }
}
