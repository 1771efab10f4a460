/** The pools of the registry over whole runs: each one is a bounded recency list, and what a
    call loads is in the table when the call returns. */
module ToolPools {
  import opened Options
  import opened PythonText
  import opened ToolScope
  import opened ToolRegistry
  import opened ToolRegistryRuns
  import opened LruRefinement
  import opened LruAutoload

  function Anything<T>(): T -> bool {
    _ => true
  }

  /** A pool of at most `max` tools, all of them among the names, and a recency list. */
  ghost predicate Fits<B>(s: Scope<B>, names: string -> bool, max: nat, clock: Readings, now: nat) {
    && PoolOk(Sim(s, now), clock)
    && |s.loaded| <= max
    && (forall i :: 0 <= i < |s.loaded| ==> names(s.loaded[i].key))
  }

  /** Every pool with one of these keys fits. */
  ghost predicate AllFit<K, B>(rows: seq<Row<K, B>>, which: K -> bool, names: string -> bool, max: nat, clock: Readings,
                               now: nat) {
    forall i :: 0 <= i < |rows| && which(rows[i].key) ==> Fits(rows[i].scope, names, max, clock, now)
  }

  // ---------------------------------------------------------------- what keeps a pool fitting

  lemma {:induction false} CleanedIsPart<B>(loaded: seq<Entry<B>>, ttl: int, stale: B -> bool, clock: Readings,
                                            now: nat)
    ensures forall e :: e in Cleaned(loaded, ttl, stale, clock, now) ==> e in loaded
    ensures DistinctKeys(loaded) ==> DistinctKeys(Cleaned(loaded, ttl, stale, clock, now))
  {
    hide Stays;
    if loaded != [] {
      var init, last := loaded[..|loaded| - 1], loaded[|loaded| - 1];
      CleanedIsPart(init, ttl, stale, clock, now);
      var kept := Cleaned(init, ttl, stale, clock, now);
      forall i | 0 <= i < |kept| && DistinctKeys(loaded)
        ensures kept[i].key != last.key
      {
        assert kept[i] in init;
      }
    }
  }

  /** A cleanup keeps some of the tools, and their recency order. */
  lemma CleanedIsKept<B>(loaded: seq<Entry<B>>, ttl: int, stale: B -> bool, clock: Readings, at: nat)
    requires DistinctKeys(loaded)
    ensures var kept := Cleaned(loaded, ttl, stale, clock, at);
      && kept == KeepBy(loaded, Among(kept))
      && RecentTools(kept) == ListKeep(RecentTools(loaded), Among(kept))
  {
    hide Cleaned, Recency, KeepBy, ListKeep, Stays, KeyIn;
    var kept := Cleaned(loaded, ttl, stale, clock, at);
    CleanedMeans(loaded, ttl, stale, clock, at);
    CleanedIsKeep(loaded, ttl, stale, clock, at, Among(kept));
    RecencyKeeps(loaded, Among(kept));
    ItemsKeep(Recency(loaded), Among(kept));
  }

  lemma CleanedFits<B>(s: Scope<B>, ttl: int, stale: B -> bool, at: nat,
                       names: string -> bool, max: nat, clock: Readings, now: nat)
    requires Fits(s, names, max, clock, now)
    ensures Fits(CleanedScope(s, ttl, stale, clock, at), names, max, clock, now)
  {
    hide Cleaned, KeepBy, Recency;
    var kept := Cleaned(s.loaded, ttl, stale, clock, at);
    CleanedIsKept(s.loaded, ttl, stale, clock, at);
    CleanedIsPart(s.loaded, ttl, stale, clock, at);
    KeptIsOk(Sim(s, now), Among(kept), clock);
    forall i | 0 <= i < |kept|
      ensures names(kept[i].key)
    {
      assert kept[i] in s.loaded;
    }
  }

  lemma LaterFits<B>(s: Scope<B>, names: string -> bool, max: nat, clock: Readings, now: nat, later: nat)
    requires Fits(s, names, max, clock, now) && now <= later
    ensures Fits(s, names, max, clock, later)
  {
  }

  lemma ActiveFits<B>(s: Scope<B>, active: real, names: string -> bool, max: nat, clock: Readings, now: nat)
    requires Fits(s, names, max, clock, now)
    ensures Fits(s.(lastActive := active), names, max, clock, now)
  {
  }

  lemma NewFits<B>(names: string -> bool, max: nat, clock: Readings, created: nat, now: nat)
    ensures Fits(NewScope<B>(clock, created), names, max, clock, now)
  {
  }

  /** Loading within the capacity. */
  lemma LoadedFits<B>(s: Scope<B>, items: seq<Item<B>>, names: string -> bool, max: nat, clock: Readings, now: nat)
    requires NonDecreasing(clock) && NeverStalls(clock) && now >= 2 && max >= 1 && Fits(s, names, max, clock, now)
    requires forall i :: 0 <= i < |items| ==> names(items[i].key)
    ensures var load := AddedAll(s, items, max, clock, now);
      && load.now >= now && Fits(load.scope, names, max, clock, load.now)
      && ListOf(Sim(load.scope, load.now)) == ListAddAll(ListOf(Sim(s, now)), items, max)
      && (forall i :: 0 <= i < |items| ==> load.oks[i])
  {
    hide ListOf, ListAddAll, AddedAll, KeyIn, PoolOk;
    AddedAllRefines(Sim(s, now), items, max, clock);
    var load := AddedAll(s, items, max, clock, now);
    PoolKeys(Sim(s, now), clock);
    PoolKeys(Sim(load.scope, load.now), clock);
    AddAllOk(ListOf(Sim(s, now)), items, max);
    forall i | 0 <= i < |load.scope.loaded|
      ensures names(load.scope.loaded[i].key)
    {
      KeyAt(load.scope.loaded, i);
      KeysNamed(s, ListOf(Sim(s, now)), items, names, load.scope.loaded[i].key);
    }
  }

  lemma KeyAt<B>(loaded: seq<Entry<B>>, i: nat)
    requires i < |loaded|
    ensures KeyIn(loaded, loaded[i].key)
  {
  }

  lemma KeysNamed<B>(s: Scope<B>, list: seq<Item<B>>, items: seq<Item<B>>, names: string -> bool, key: string)
    requires forall i :: 0 <= i < |s.loaded| ==> names(s.loaded[i].key)
    requires forall i :: 0 <= i < |items| ==> names(items[i].key)
    requires forall k :: k in ListKeys(list) <==> KeyIn(s.loaded, k)
    requires key in ListKeys(list) + ListKeys(items)
    ensures names(key)
  {
  }

  lemma GotFits<B>(s: Scope<B>, key: string, names: string -> bool, max: nat, clock: Readings, now: nat)
    requires NonDecreasing(clock) && NeverStalls(clock) && Fits(s, names, max, clock, now)
    ensures var step := Got(s, key, clock, now); step.now > now && Fits(step.scope, names, max, clock, step.now)
  {
    UseRefines(Sim(s, now), key, clock);
  }

  // ---------------------------------------------------------------- what keeps a table fitting

  lemma LaterAllFit<K, B>(rows: seq<Row<K, B>>, which: K -> bool, names: string -> bool, max: nat, clock: Readings,
                          now: nat, later: nat)
    requires AllFit(rows, which, names, max, clock, now) && now <= later
    ensures AllFit(rows, which, names, max, clock, later)
  {
    hide Fits;
    forall i | 0 <= i < |rows| && which(rows[i].key)
      ensures Fits(rows[i].scope, names, max, clock, later)
    {
      LaterFits(rows[i].scope, names, max, clock, now, later);
    }
  }

  lemma {:induction false} SweptFit<K, B>(rows: seq<Row<K, B>>, ttl: int, stale: B -> bool, at: nat,
                                          which: K -> bool, names: string -> bool, max: nat, clock: Readings, now: nat)
    requires AllFit(rows, which, names, max, clock, now)
    ensures AllFit(SweptRows(rows, ttl, stale, clock, at).rows, which, names, max, clock, now)
    ensures SweptRows(rows, ttl, stale, clock, at).now >= at
  {
    hide Fits, Cleaned, IsAbandoned;
    if rows != [] {
      var init, last := rows[..|rows| - 1], rows[|rows| - 1];
      SweptFit(init, ttl, stale, at, which, names, max, clock, now);
      if which(last.key) {
        CleanedFits(last.scope, ttl, stale, SweptRows(init, ttl, stale, clock, at).now, names, max, clock, now);
      }
    }
  }

  lemma {:induction false} CappedFit<K, B>(rows: seq<Row<K, B>>, cap: nat,
                                           which: K -> bool, names: string -> bool, max: nat, clock: Readings, now: nat)
    requires AllFit(rows, which, names, max, clock, now)
    ensures AllFit(CappedRows(rows, cap), which, names, max, clock, now)
    decreases |rows|
  {
    hide Fits;
    if |rows| > cap {
      CappedFit(RemoveAt(rows, QuietIndex(rows)), cap, which, names, max, clock, now);
    }
  }

  lemma GrownFit<K, B>(rows: seq<Row<K, B>>, key: K, created: nat,
                       which: K -> bool, names: string -> bool, max: nat, clock: Readings, now: nat)
    requires AllFit(rows, which, names, max, clock, now)
    ensures AllFit(rows + [Row(key, NewScope<B>(clock, created))], which, names, max, clock, now)
  {
    hide Fits;
    NewFits<B>(names, max, clock, created, now);
  }

  lemma ReplacedFit<K, B>(rows: seq<Row<K, B>>, i: int, scope: Scope<B>,
                          which: K -> bool, names: string -> bool, max: nat, clock: Readings, now: nat)
    requires AllFit(rows, which, names, max, clock, now) && i < |rows|
    requires i >= 0 && which(rows[i].key) ==> Fits(scope, names, max, clock, now)
    ensures AllFit(WithScope(rows, i, scope), which, names, max, clock, now)
  {
    hide Fits;
  }

  /** Opening a pool for a key: the one that is there, or a new one. */
  lemma OpenedFits<K, B>(rows: seq<Row<K, B>>, key: K, maxScopes: nat, which: K -> bool, names: string -> bool,
                         max: nat,
                         clock: Readings, now: nat)
    requires AllFit(rows, which, names, max, clock, now) && which(key)
    ensures var o := Open(rows, key, maxScopes, clock, now);
      && AllFit(o.rows, which, names, max, clock, o.now) && Fits(o.scope, names, max, clock, o.now)
  {
    hide Fits, CappedRows, RowIndex, NewScope;
    if RowIndex(rows, key) < 0 {
      LaterAllFit(rows, which, names, max, clock, now, now + 2);
      GrownFit(rows, key, now, which, names, max, clock, now + 2);
      CappedFit(rows + [Row(key, NewScope<B>(clock, now))], maxScopes, which, names, max, clock, now + 2);
      NewFits<B>(names, max, clock, now, now + 2);
    }
  }

  lemma AtLoadFits<K, B>(rows: seq<Row<K, B>>, key: K, rules: Rules<B>, which: K -> bool, names: string -> bool,
                         max: nat,
                         clock: Readings, now: nat)
    requires AllFit(rows, which, names, max, clock, now) && which(key)
    ensures var (scope, start) := AtLoad(rows, key, rules, clock, now);
      && start >= Open(rows, key, rules.maxScopes, clock, now).now
      && Fits(scope, names, max, clock, start)
  {
    hide Open, Fits, AllFit, Cleaned;
    OpenedFits(rows, key, rules.maxScopes, which, names, max, clock, now);
    var o := Open(rows, key, rules.maxScopes, clock, now);
    var (scope, start) := AtLoad(rows, key, rules, clock, now);
    CleanedFits(o.scope, rules.ttl, rules.stale, o.now, names, max, clock, o.now);
    LaterFits(scope, names, max, clock, o.now, start);
  }

  /** Loading into a table. */
  lemma FilledFits<K, B>(rows: seq<Row<K, B>>, key: K, items: seq<Item<B>>, rules: Rules<B>, which: K -> bool,
                         names: string -> bool, clock: Readings, now: nat)
    requires NonDecreasing(clock) && NeverStalls(clock) && now >= 2 && rules.maxTools >= 1
    requires AllFit(rows, which, names, rules.maxTools, clock, now) && which(key)
    requires forall i :: 0 <= i < |items| ==> names(items[i].key)
    ensures var load := Loading(rows, key, items, rules, clock, now);
            var (scope, start) := AtLoad(rows, key, rules, clock, now);
      && load.now >= now
      && AllFit(Filled(rows, key, items, rules, clock, now), which, names, rules.maxTools, clock, load.now)
      && Fits(load.scope, names, rules.maxTools, clock, load.now)
      && ListOf(Sim(load.scope, load.now)) == ListAddAll(ListOf(Sim(scope, start)), items, rules.maxTools)
      && (forall i :: 0 <= i < |items| ==> load.oks[i])
  {
    hide Open, Fits, AllFit, AtLoad, AddedAll, ListOf, ListAddAll, WithScope;
    OpenedFits(rows, key, rules.maxScopes, which, names, rules.maxTools, clock, now);
    AtLoadFits(rows, key, rules, which, names, rules.maxTools, clock, now);
    var o := Open(rows, key, rules.maxScopes, clock, now);
    var (scope, start) := AtLoad(rows, key, rules, clock, now);
    LoadedFits(scope, items, names, rules.maxTools, clock, start);
    var load := Loading(rows, key, items, rules, clock, now);
    LaterAllFit(o.rows, which, names, rules.maxTools, clock, o.now, load.now);
    ReplacedFit(o.rows, o.index, load.scope, which, names, rules.maxTools, clock, load.now);
  }

  lemma ReadFits<K, B>(rows: seq<Row<K, B>>, key: Option<K>, ttl: int, stale: B -> bool, which: K -> bool,
                       names: string -> bool,
                       max: nat, clock: Readings, now: nat)
    requires AllFit(rows, which, names, max, clock, now)
    ensures var read := ReadRow(rows, key, ttl, stale, clock, now);
            read.now >= now && AllFit(read.rows, which, names, max, clock, read.now)
  {
    hide Fits, Cleaned;
    var i := FullRow(rows, key);
    if i >= 0 {
      var s := rows[i].scope;
      var later := now + CleanupReads(|s.loaded|, ttl);
      LaterAllFit(rows, which, names, max, clock, now, later + 1);
      var cleaned := CleanedScope(s, ttl, stale, clock, now);
      if which(rows[i].key) {
        CleanedFits(s, ttl, stale, now, names, max, clock, now);
        LaterFits(cleaned, names, max, clock, now, later + 1);
        ActiveFits(cleaned, clock(later), names, max, clock, later + 1);
      }
      ReplacedFit(rows, i, cleaned.(lastActive := clock(later)), which, names, max, clock, later + 1);
    }
  }

  // ---------------------------------------------------------------- runs

  ghost predicate PoolsFit(r: Registry, w: World) {
    && r.now >= 1
    && AllFit(r.server, Anything(), Anything(), Max(w), w.clock, r.now)
    && AllFit(r.client, Anything(), Anything(), Max(w), w.clock, r.now)
  }

  function Max(w: World): nat {
    if w.cfg.maxTools >= 0 then w.cfg.maxTools else 0
  }

  /** A clock that neither goes back nor stalls, and room for a tool. */
  ghost predicate Regular(w: World) {
    NonDecreasing(w.clock) && NeverStalls(w.clock) && w.cfg.maxTools >= 1
  }

  lemma SweptPoolsFit(r: Registry, w: World, generation: int)
    requires PoolsFit(r, w)
    ensures PoolsFit(Swept(r, w.cfg, generation, w.clock), w) && Swept(r, w.cfg, generation, w.clock).now > r.now
  {
    hide AllFit, Fits, SweptRows;
    var server := SweptRows(r.server, w.cfg.ttl, ServerStale(generation), w.clock, r.now + 1);
    SweptFit(r.server, w.cfg.ttl, ServerStale(generation), r.now + 1, Anything(), Anything(), Max(w), w.clock, r.now);
    SweptFit(r.client, w.cfg.ttl, ClientStale(0), server.now, Anything(), Anything(), Max(w), w.clock, r.now);
    var swept := Swept(r, w.cfg, generation, w.clock);
    LaterPoolsFit(swept.(now := r.now), w, swept.now);
  }

  lemma LaterPoolsFit(r: Registry, w: World, later: nat)
    requires PoolsFit(r, w) && r.now <= later
    ensures PoolsFit(r.(now := later), w)
  {
    hide AllFit;
    LaterAllFit(r.server, Anything(), Anything(), Max(w), w.clock, r.now, later);
    LaterAllFit(r.client, Anything(), Anything(), Max(w), w.clock, r.now, later);
  }

  lemma BesideFits<K, B>(rows: seq<Row<K, B>>, isNew: bool, w: World, now: nat, later: nat)
    requires AllFit(rows, Anything(), Anything(), Max(w), w.clock, now) && now <= later
    ensures AllFit(CappedBeside(rows, isNew, w.cfg), Anything(), Anything(), Max(w), w.clock, later)
  {
    hide AllFit;
    CappedFit(rows, MaxScopes(w.cfg), Anything(), Anything(), Max(w), w.clock, now);
    LaterAllFit(CappedBeside(rows, isNew, w.cfg), Anything(), Anything(), Max(w), w.clock, now, later);
  }

  lemma AutoloadFits(r: Registry, w: World, generation: int, key: Option<ServerKey>, refs: seq<ToolReference>)
    requires Regular(w) && PoolsFit(r, w)
    ensures PoolsFit(Autoloaded(r, w.cfg, generation, key, refs, w.cfg.maxTools, w.clock).0, w)
  {
    hide AllFit, Fits, Swept, Loading, Filled, AtLoad, ListOf, ListAddAll, CappedBeside;
    if key.Some? {
      SweptPoolsFit(r, w, generation);
      var swept := Swept(r, w.cfg, generation, w.clock);
      var items, rules := ServerItems(refs, generation), ServerRules(w.cfg, generation, w.cfg.maxTools);
      FilledFits(swept.server, key.value, items, rules, Anything(), Anything(), w.clock, swept.now);
      var load := Loading(swept.server, key.value, items, rules, w.clock, swept.now);
      BesideFits(swept.client, RowIndex(swept.server, key.value) < 0, w, swept.now, load.now);
    }
  }

  lemma ClientAutoloadFits(r: Registry, w: World, generation: int, version: int, key: Option<ClientKey>,
                           refs: seq<ClientReference>)
    requires Regular(w) && PoolsFit(r, w)
    ensures PoolsFit(AutoloadedClient(r, w.cfg, generation, version, key, refs, w.cfg.maxTools, w.clock).0, w)
  {
    hide AllFit, Fits, Swept, Loading, Filled, AtLoad, ListOf, ListAddAll, CappedBeside;
    if key.Some? {
      SweptPoolsFit(r, w, generation);
      var swept := Swept(r, w.cfg, generation, w.clock);
      var items, rules := ClientItems(refs, key.value.device, version), ClientRules(w.cfg, version, w.cfg.maxTools);
      FilledFits(swept.client, key.value, items, rules, Anything(), Anything(), w.clock, swept.now);
      var load := Loading(swept.client, key.value, items, rules, w.clock, swept.now);
      BesideFits(swept.server, RowIndex(swept.client, key.value) < 0, w, swept.now, load.now);
    }
  }

  lemma ReadsFit(r: Registry, w: World, generation: int, key: Option<ServerKey>, clientKey: Option<ClientKey>)
    requires PoolsFit(r, w)
    ensures PoolsFit(GotLoaded(r, w.cfg, generation, key, w.clock).0, w)
    ensures PoolsFit(GotLoadedClient(r, w.cfg, clientKey, w.clock).0, w)
  {
    hide AllFit, ReadRow;
    ReadFits(r.server, key, w.cfg.ttl, ServerStale(generation), Anything(), Anything(), Max(w), w.clock, r.now);
    LaterPoolsFit(r, w, ReadRow(r.server, key, w.cfg.ttl, ServerStale(generation), w.clock, r.now).now);
    ReadFits(r.client, clientKey, w.cfg.ttl, ClientStale(0), Anything(), Anything(), Max(w), w.clock, r.now);
    LaterPoolsFit(r, w, ReadRow(r.client, clientKey, w.cfg.ttl, ClientStale(0), w.clock, r.now).now);
  }

  lemma UseFits(r: Registry, w: World, key: Option<ServerKey>, toolName: string)
    requires Regular(w) && PoolsFit(r, w)
    ensures PoolsFit(Used(r, key, toolName, w.clock).0, w)
  {
    hide Fits, Got;
    var i := FullRow(r.server, key);
    if i >= 0 {
      var step := Got(r.server[i].scope, toolName, w.clock, r.now);
      GotFits(r.server[i].scope, toolName, Anything(), Max(w), w.clock, r.now);
      LaterPoolsFit(r, w, step.now);
      ReplacedFit(r.server, i, step.scope, Anything(), Anything(), Max(w), w.clock, step.now);
    }
  }

  lemma SnapshotFits(r: Registry, w: World, generation: int, key: Option<ServerKey>, clientKey: Option<ClientKey>)
    requires PoolsFit(r, w)
    ensures PoolsFit(SnapshotTaken(r, w.cfg, generation, w.runtimeId, key, clientKey, w.clock).0, w)
  {
    hide Cleaned, Fits, AllFit, GotLoadedClient, ServerEntries, ClientEntries;
    var i := FullRow(r.server, key);
    if i < 0 {
      ReadsFit(r, w, generation, key, clientKey);
    } else {
      var s := r.server[i].scope;
      var cleaned := CleanedScope(s, w.cfg.ttl, ServerStale(generation), w.clock, r.now);
      var later := r.now + CleanupReads(|s.loaded|, w.cfg.ttl);
      CleanedRowFits(r, w, generation, i);
      ReadsFit(r.(server := WithScope(r.server, i, cleaned), now := later), w, generation, key, clientKey);
    }
  }

  lemma CleanedRowFits(r: Registry, w: World, generation: int, i: nat)
    requires PoolsFit(r, w) && i < |r.server|
    ensures var s := r.server[i].scope;
            var cleaned := CleanedScope(s, w.cfg.ttl, ServerStale(generation), w.clock, r.now);
            PoolsFit(r.(server := WithScope(r.server, i, cleaned), now := r.now + CleanupReads(|s.loaded|, w.cfg.ttl)),
                     w)
  {
    hide Cleaned, Fits;
    var s := r.server[i].scope;
    var cleaned := CleanedScope(s, w.cfg.ttl, ServerStale(generation), w.clock, r.now);
    var later := r.now + CleanupReads(|s.loaded|, w.cfg.ttl);
    CleanedFits(s, w.cfg.ttl, ServerStale(generation), r.now, Anything(), Max(w), w.clock, r.now);
    LaterFits(cleaned, Anything(), Max(w), w.clock, r.now, later);
    LaterPoolsFit(r, w, later);
    ReplacedFit(r.server, i, cleaned, Anything(), Anything(), Max(w), w.clock, later);
  }

  lemma ClearedFits(r: Registry, w: World, conversation: Option<string>, agent: Option<string>)
    requires PoolsFit(r, w)
    ensures PoolsFit(Cleared(r, conversation, agent).0, w)
  {
    hide Fits, ServerKeysOf, ClientKeysOf;
    if Given(conversation) {
      var after := Cleared(r, conversation, agent).0;
      forall i | 0 <= i < |after.server|
        ensures Fits(after.server[i].scope, Anything(), Max(w), w.clock, after.now)
      {
        assert after.server[i] in after.server;
        WithoutIsExact(r.server, ServerKeysOf(conversation.value, agent), after.server[i]);
      }
      forall i | 0 <= i < |after.client|
        ensures Fits(after.client[i].scope, Anything(), Max(w), w.clock, after.now)
      {
        assert after.client[i] in after.client;
        WithoutIsExact(r.client, ClientKeysOf(conversation.value, agent), after.client[i]);
      }
    }
  }

  lemma StepFits(r: Registry, e: Event, w: World)
    requires Regular(w) && PoolsFit(r, w)
    ensures PoolsFit(Next(r, e, w), w)
  {
    hide PoolsFit, Autoloaded, AutoloadedClient, GotLoaded, GotLoadedClient, Used, SnapshotTaken;
    hide RestorableServer, RestorableClient, AutoloadKey, ReadKey, KeyFor;
    match e.call
    case Autoload(c, a, refs) => AutoloadFits(r, w, e.generation, KeyFor(c, a), refs);
    case AutoloadClient(c, a, d, s, active, version, refs) =>
      ClientAutoloadFits(r, w, e.generation, version, AutoloadKey(c, a, d, s, refs, active), refs);
    case Read(c, a) => ReadsFit(r, w, e.generation, KeyFor(c, a), None);
    case ReadClient(c, a, d, s, active) => ReadsFit(r, w, e.generation, None, ReadKey(c, a, d, s, active));
    case Use(c, a, toolName) => UseFits(r, w, KeyFor(c, a), toolName);
    case TakeSnapshot(c, a, d, s, active) =>
      SnapshotFits(r, w, e.generation, KeyFor(c, a), ReadKey(c, a, d, s, active));
    case RestoreServer(c, a, snapshot) =>
      AutoloadFits(r, w, e.generation, KeyFor(c, a),
                   RestorableServer(snapshot.serverTools, snapshot.runtimeId == w.runtimeId, e.generation));
    case RestoreClient(c, a, d, s, active, version, snapshot) =>
      if Given(d) {
        var effective := if Given(s) then s else active;
        var known := if snapshot.runtimeId == w.runtimeId then version else 0;
        var refs := RestorableClient(snapshot.clientTools, d.value, effective, known);
        ClientAutoloadFits(r, w, e.generation, version, AutoloadKey(c, a, d, effective, refs, active), refs);
      }
    case Clear(c, a) => ClearedFits(r, w, c, a);
    case ClearAll => EmptyFits(w, w.clock(r.now), r.now + 1);
  }

  lemma EmptyFits(w: World, lastSweep: real, now: nat)
    requires now >= 1
    ensures PoolsFit(Registry([], [], lastSweep, now), w)
  {
  }

  /** Over every run under a clock that neither goes back nor stalls: no pool ever holds more tools
      than allowed or one key twice, and every pool is a recency list. */
  lemma {:induction false} PoolsStayBounded(events: seq<Event>, w: World)
    requires Regular(w)
    ensures PoolsFit(Run(events, w), w)
  {
    hide Next, PoolsFit;
    if events == [] {
      EmptyFits(w, w.clock(0), 1);
    } else {
      PoolsStayBounded(events[..|events| - 1], w);
      StepFits(Run(events[..|events| - 1], w), events[|events| - 1], w);
    }
  }

  // ---------------------------------------------------------------- what an autoload leaves

  /** A reference is in the pool exactly when fewer different tools followed it than the pool
      holds; few enough are all there; and there are never more than the pool holds. */
  predicate LeavesLoaded<B>(pool: seq<Entry<B>>, items: seq<Item<B>>, max: int) {
    && (forall i :: 0 <= i < |items| && IsLast(items, i) ==>
          (KeyIn(pool, items[i].key) <==> |ListKeys(items[i + 1..])| < max))
    && (|ListKeys(items)| <= max ==> forall i :: 0 <= i < |items| ==> KeyIn(pool, items[i].key))
    && |pool| <= max
  }

  /** No later item has the same key. */
  predicate IsLast<B>(items: seq<Item<B>>, i: nat)
    requires i < |items|
  {
    forall j :: i < j < |items| ==> items[j].key != items[i].key
  }

  lemma LoadLeaves<B(!new)>(s: Scope<B>, items: seq<Item<B>>, max: nat, clock: Readings, now: nat)
    requires NonDecreasing(clock) && NeverStalls(clock) && now >= 2 && max >= 1 && Fits(s, Anything(), max, clock, now)
    ensures var load := AddedAll(s, items, max, clock, now);
            LeavesLoaded(load.scope.loaded, items, max) && forall i :: 0 <= i < |items| ==> load.oks[i]
  {
    hide AddedAll, KeyIn, ListOf, ListAddAll, ListKeys, DistinctItems, PoolOk;
    LoadedFits(s, items, Anything(), max, clock, now);
    var start := Sim(s, now);
    var load := AddedAll(s, items, max, clock, now);
    PoolKeys(start, clock);
    PoolKeys(Sim(load.scope, load.now), clock);
    forall i | 0 <= i < |items| && IsLast(items, i)
      ensures KeyIn(load.scope.loaded, items[i].key) <==> |ListKeys(items[i + 1..])| < max
    {
      AutoloadedIff(start, items, i, max, clock);
    }
    if |ListKeys(items)| <= max {
      FewReferencesAllLoaded(ListOf(start), items, max);
      forall i | 0 <= i < |items|
        ensures KeyIn(load.scope.loaded, items[i].key)
      {
        HasListKey(items, i);
      }
    }
  }

  lemma HasListKey<B>(items: seq<Item<B>>, i: nat)
    requires i < |items|
    ensures items[i].key in ListKeys(items)
  {
  }

  lemma {:induction false} AllTaken<T>(refs: seq<T>, oks: seq<bool>)
    requires |oks| == |refs| && forall i :: 0 <= i < |refs| ==> oks[i]
    ensures Taken(refs, oks) == refs
  {
    if refs != [] {
      AllTaken(refs[..|refs| - 1], oks[..|refs| - 1]);
    }
  }

  lemma LoadingLeaves<K, B(!new)>(rows: seq<Row<K, B>>, key: K, items: seq<Item<B>>, rules: Rules<B>, clock: Readings,
                                  now: nat)
    requires NonDecreasing(clock) && NeverStalls(clock) && now >= 2 && rules.maxTools >= 1
    requires AllFit(rows, Anything(), Anything(), rules.maxTools, clock, now)
    ensures var load := Loading(rows, key, items, rules, clock, now);
            LeavesLoaded(load.scope.loaded, items, rules.maxTools) && forall i :: 0 <= i < |items| ==> load.oks[i]
  {
    hide LeavesLoaded, AddedAll, Fits, AllFit, AtLoad, Open;
    AtLoadFits(rows, key, rules, Anything(), Anything(), rules.maxTools, clock, now);
    var (scope, start) := AtLoad(rows, key, rules, clock, now);
    LoadLeaves(scope, items, rules.maxTools, clock, start);
  }

  /** Whatever ran before: a reference of an autoload is in the table afterwards, under the
      caller's key, exactly when fewer different tools followed it in the call than a pool
      holds; so a call with no more different tools than that loads them all. Every reference
      is reported as loaded, even one that a later reference evicted. */
  lemma AutoloadLeaves(events: seq<Event>, w: World, generation: int, key: ServerKey, refs: seq<ToolReference>)
    requires Regular(w)
    ensures var result := Autoloaded(Run(events, w), w.cfg, generation, Some(key), refs, w.cfg.maxTools, w.clock);
      && LeavesLoaded(PoolOf(result.0.server, key), ServerItems(refs, generation), w.cfg.maxTools)
      && result.1 == refs
  {
    hide Run, Swept, Loading, Filled, PoolsFit, Invariant, LeavesLoaded, PoolOf, CappedBeside, AllFit;
    var r := Run(events, w);
    TablesStayBounded(events, w);
    PoolsStayBounded(events, w);
    AutoloadFillsTheTable(r, w, generation, key, refs, w.cfg.maxTools);
    SweptPoolsFit(r, w, generation);
    var swept := Swept(r, w.cfg, generation, w.clock);
    var items, rules := ServerItems(refs, generation), ServerRules(w.cfg, generation, w.cfg.maxTools);
    FitOfBoth(r, w);
    FitOfBoth(swept, w);
    LoadingLeaves(swept.server, key, items, rules, w.clock, swept.now);
    AllTaken(refs, Loading(swept.server, key, items, rules, w.clock, swept.now).oks);
  }

  lemma FitOfBoth(r: Registry, w: World)
    requires PoolsFit(r, w)
    ensures r.now >= 1 && AllFit(r.server, Anything(), Anything(), Max(w), w.clock, r.now)
    ensures AllFit(r.client, Anything(), Anything(), Max(w), w.clock, r.now)
  {
  }

  /** The same for device tools. */
  lemma ClientAutoloadLeaves(events: seq<Event>, w: World, generation: int, version: int, key: ClientKey,
                             refs: seq<ClientReference>)
    requires Regular(w)
    ensures var result := AutoloadedClient(Run(events, w), w.cfg, generation, version, Some(key), refs, w.cfg.maxTools,
                                           w.clock);
      && LeavesLoaded(PoolOf(result.0.client, key), ClientItems(refs, key.device, version), w.cfg.maxTools)
      && result.1 == refs
  {
    hide Run, Swept, Loading, Filled, PoolsFit, Invariant, LeavesLoaded, PoolOf, CappedBeside, AllFit;
    var r := Run(events, w);
    TablesStayBounded(events, w);
    PoolsStayBounded(events, w);
    ClientAutoloadFillsTheTable(r, w, generation, version, key, refs, w.cfg.maxTools);
    SweptPoolsFit(r, w, generation);
    var swept := Swept(r, w.cfg, generation, w.clock);
    var items, rules := ClientItems(refs, key.device, version), ClientRules(w.cfg, version, w.cfg.maxTools);
    FitOfBoth(r, w);
    FitOfBoth(swept, w);
    LoadingLeaves(swept.client, key, items, rules, w.clock, swept.now);
    AllTaken(refs, Loading(swept.client, key, items, rules, w.clock, swept.now).oks);
  }

  // ---------------------------------------------------------------- one reference too many

  function NumberedRefs(n: nat): (refs: seq<ToolReference>)
    ensures |refs| == n
  {
    seq(n, i requires 0 <= i < n => ToolReference(Decimal(i), "server", None))
  }

  /** One reference more than a pool holds: the first is reported as loaded, and is not. */
  lemma OneTooMany(events: seq<Event>, w: World, generation: int, key: ServerKey)
    requires Regular(w)
    ensures var refs := NumberedRefs(w.cfg.maxTools + 1);
            var result := Autoloaded(Run(events, w), w.cfg, generation, Some(key), refs, w.cfg.maxTools, w.clock);
            refs[0] in result.1 && !KeyIn(PoolOf(result.0.server, key), "0")
  {
    hide Run, Autoloaded, PoolOf, KeyIn;
    var max := w.cfg.maxTools;
    var refs := NumberedRefs(max + 1);
    AutoloadLeaves(events, w, generation, key, refs);
    var items := ServerItems(refs, generation);
    NumberedItems(refs, items, generation);
    assert items[0].key == "0" && IsLast(items, 0);
    KeyCount(items[1..]);
  }

  lemma NumberedItems(refs: seq<ToolReference>, items: seq<Item<ServerBinding>>, generation: int)
    requires refs == NumberedRefs(|refs|) && refs != [] && items == ServerItems(refs, generation)
    ensures items[0].key == "0" && IsLast(items, 0) && DistinctItems(items[1..])
  {
    hide Decimal, ServerItem;
    forall i, j | 0 <= i < j < |items|
      ensures items[i].key != items[j].key
    {
      NumberedKey(refs[i], i, generation);
      NumberedKey(refs[j], j, generation);
      if Decimal(i) == Decimal(j) {
        DecimalInjective(i, j);
      }
    }
    NumberedKey(refs[0], 0, generation);
    DecimalZero();
  }

  lemma DecimalZero()
    ensures Decimal(0) == "0"
  {
  }

  lemma NumberedKey(ref: ToolReference, i: nat, generation: int)
    requires ref == ToolReference(Decimal(i), "server", None)
    ensures ServerItem(ref, generation).key == Decimal(i)
  {
  }
}
