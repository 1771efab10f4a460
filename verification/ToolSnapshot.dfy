/** Snapshot and restore.

    A snapshot writes down the tools of a conversation; a restore loads them again, perhaps in
    another process. These are the exact conditions under which it gives back what was there.

    A restore is an autoload, so it starts with a sweep and a cleanup, and the sweep may drop
    the pool it is about to fill. What loading starts from is then still a part of what the key
    held, in the same recency order; that is shown first. */
module ToolSnapshot {
  import opened Options
  import opened PythonText
  import opened ToolScope
  import opened ToolRegistry
  import opened ToolRegistryRuns
  import opened ToolTables
  import opened LruRefinement
  import opened LruAutoload
  import LruWindow
  import opened ToolPools

  // ---------------------------------------------------------------- loading into an empty pool

  /** One more tool: at its end, and there exactly if it is new and there is room. */
  lemma OneMore<B>(s: Scope<B>, x: Item<B>, max: int, clock: Readings, now: nat)
    requires |s.loaded| <= max || s.loaded == []
    ensures var step := Added(s, x.key, x.binding, max, clock, now);
      && |step.scope.loaded| <= |s.loaded| + 1 && (|step.scope.loaded| <= max || step.scope.loaded == [])
      && (|step.scope.loaded| == |s.loaded| + 1 ==> Items(step.scope.loaded) == Items(s.loaded) + [x])
      && (|s.loaded| < max && IndexOf(s.loaded, x.key) < 0 ==> step.ok && |step.scope.loaded| == |s.loaded| + 1)
  {
    hide MakeRoom, IndexOf;
    RoomIsSmaller(s.loaded, max);
    RoomWhenFree(s.loaded, max);
  }

  lemma RoomWhenFree<B>(loaded: seq<Entry<B>>, max: int)
    ensures |loaded| < max ==> MakeRoom(loaded, max) == loaded
    ensures |MakeRoom(loaded, max)| < max || MakeRoom(loaded, max) == []
  {
  }

  /** In an empty pool tools end up in the order they are loaded in, and all of them do when
      they are different and fit. */
  lemma {:induction false} FreshLoad<B>(s: Scope<B>, items: seq<Item<B>>, max: int, clock: Readings, now: nat)
    requires s.loaded == []
    ensures var load := AddedAll(s, items, max, clock, now);
      && |load.scope.loaded| <= |items| && (|load.scope.loaded| <= max || load.scope.loaded == [])
      && (|load.scope.loaded| == |items| ==> Items(load.scope.loaded) == items)
      && (DistinctItems(items) && |items| <= max ==>
            |load.scope.loaded| == |items| && forall i :: 0 <= i < |items| ==> load.oks[i])
  {
    hide Added, DistinctItems, AddedAll, Items;
    if items == [] {
      LoadNothing(s, items, max, clock, now);
    } else {
      var init, last := items[..|items| - 1], items[|items| - 1];
      FreshLoad(s, init, max, clock, now);
      var before := AddedAll(s, init, max, clock, now);
      LoadOneMore(s, items, max, clock, now);
      OneMore(before.scope, last, max, clock, before.now);
      assert items == init + [last];
      if DistinctItems(items) && |items| <= max {
        LastIsNew(init, last, before.scope.loaded);
      }
    }
  }

  lemma LoadNothing<B>(s: Scope<B>, items: seq<Item<B>>, max: int, clock: Readings, now: nat)
    requires items == []
    ensures AddedAll(s, items, max, clock, now) == Load(s, [], now)
    ensures s.loaded == [] ==> Items(s.loaded) == items
  {
  }

  lemma LoadOneMore<B>(s: Scope<B>, items: seq<Item<B>>, max: int, clock: Readings, now: nat)
    requires items != []
    ensures var before, last := AddedAll(s, items[..|items| - 1], max, clock, now), items[|items| - 1];
            var step := Added(before.scope, last.key, last.binding, max, clock, before.now);
            AddedAll(s, items, max, clock, now) == Load(step.scope, before.oks + [step.ok], step.now)
  {
    hide Added;
  }

  lemma LastIsNew<B>(init: seq<Item<B>>, last: Item<B>, loaded: seq<Entry<B>>)
    requires DistinctItems(init + [last])
    ensures DistinctItems(init)
    ensures Items(loaded) == init ==> IndexOf(loaded, last.key) < 0
  {
    var items := init + [last];
    assert items[|init|] == last && forall j :: 0 <= j < |init| ==> items[j] == init[j];
    if Items(loaded) == init {
      assert forall j :: 0 <= j < |loaded| ==> loaded[j].key == init[j].key;
    }
  }

  lemma {:induction false} RoomIsSmaller<B>(loaded: seq<Entry<B>>, max: int)
    ensures |MakeRoom(loaded, max)| <= |loaded|
    ensures |MakeRoom(loaded, max)| == |loaded| ==> MakeRoom(loaded, max) == loaded
    decreases |loaded|
  {
    if |loaded| >= max && loaded != [] {
      RoomIsSmaller(RemoveAt(loaded, LruIndex(loaded)), max);
    }
  }

  /** What a pool is restored to, and when that is what was wanted. */
  lemma FreshLoadIs<B>(s: Scope<B>, items: seq<Item<B>>, wanted: seq<Item<B>>, max: int, clock: Readings, now: nat)
    requires s.loaded == [] && DistinctItems(wanted) && |items| <= |wanted|
    ensures var load := AddedAll(s, items, max, clock, now);
      && (Items(load.scope.loaded) == wanted <==> items == wanted && (wanted == [] || |wanted| <= max))
      && (Items(load.scope.loaded) == wanted ==> forall i :: 0 <= i < |items| ==> load.oks[i])
  {
    hide AddedAll;
    FreshLoad(s, items, max, clock, now);
  }

  // ---------------------------------------------------------------- the pool when loading starts

  function ServerAtLoad(r: Registry, w: World, generation: int, key: ServerKey): seq<Entry<ServerBinding>> {
    var swept := Swept(r, w.cfg, generation, w.clock);
    AtLoad(swept.server, key, ServerRules(w.cfg, generation, w.cfg.maxTools), w.clock, swept.now).0.loaded
  }

  function ClientAtLoad(r: Registry, w: World, generation: int, version: int,
                        key: ClientKey): seq<Entry<ClientBinding>> {
    var swept := Swept(r, w.cfg, generation, w.clock);
    AtLoad(swept.client, key, ClientRules(w.cfg, version, w.cfg.maxTools), w.clock, swept.now).0.loaded
  }

  /** Some of the tools, in their recency order. */
  ghost predicate IsLeft<B>(left: seq<Entry<B>>, loaded: seq<Entry<B>>) {
    && |left| <= |loaded| && (forall e :: e in left ==> e in loaded)
    && (DistinctKeys(loaded) ==> DistinctKeys(left) && RecentTools(left) == ListKeep(RecentTools(loaded), Among(left)))
  }

  lemma CleanedIsLeft<B>(loaded: seq<Entry<B>>, ttl: int, stale: B -> bool, clock: Readings, at: nat)
    ensures IsLeft(Cleaned(loaded, ttl, stale, clock, at), loaded)
  {
    hide Cleaned, Recency, KeepBy, ListKeep, DistinctKeys;
    CleanedIsPart(loaded, ttl, stale, clock, at);
    if DistinctKeys(loaded) {
      CleanedIsKept(loaded, ttl, stale, clock, at);
    }
  }

  lemma LeftOfLeft<B>(last: seq<Entry<B>>, left: seq<Entry<B>>, loaded: seq<Entry<B>>)
    requires IsLeft(left, loaded) && IsLeft(last, left)
    ensures IsLeft(last, loaded)
  {
    hide Recency, ListKeep, DistinctKeys;
    if DistinctKeys(loaded) {
      forall key
        ensures Among(last)(key) <==> Among(left)(key) && Among(last)(key)
      {
        if i :| 0 <= i < |last| && last[i].key == key {
          assert last[i] in left;
          var j :| 0 <= j < |left| && left[j] == last[i];
          assert left[j].key == key;
        }
      }
      LruWindow.KeepBoth(RecentTools(loaded), Among(left), Among(last), Among(last));
    }
  }

  lemma AllIsLeft<B>(loaded: seq<Entry<B>>)
    ensures IsLeft(loaded, loaded)
  {
    hide Recency;
    if DistinctKeys(loaded) {
      var items := RecentTools(loaded);
      forall i | 0 <= i < |items|
        ensures Among(loaded)(items[i].key)
      {
        ItemAt(items, i);
        ItemsHaveKeys(Recency(loaded), items[i].key);
        RecencyKeys(loaded, items[i].key);
      }
      LruWindow.KeepAll(items, Among(loaded));
    }
  }

  lemma ItemAt<B>(items: seq<Item<B>>, i: nat)
    requires i < |items|
    ensures HasKey(items, items[i].key)
  {
  }

  lemma ServerAtLoadIsLeft(r: Registry, w: World, generation: int, key: ServerKey)
    requires DistinctRows(r.server)
    ensures IsLeft(ServerAtLoad(r, w, generation, key), PoolOf(r.server, key))
  {
    hide SweptRows, AtLoad, IsLeft, DistinctRows, PoolOf, Cleaned;
    var swept := Swept(r, w.cfg, generation, w.clock);
    var at := AtLoadPool(swept.server, key, ServerRules(w.cfg, generation, w.cfg.maxTools), w.clock, swept.now);
    CleanedIsLeft(PoolOf(swept.server, key), w.cfg.ttl, ServerStale(generation), w.clock, at);
    if w.clock(r.now) - r.lastSweep < SWEEP_MIN_INTERVAL_SECONDS {
      AllIsLeft(PoolOf(r.server, key));
    } else {
      var before := SweptPool(r.server, w.cfg.ttl, ServerStale(generation), w.clock, r.now + 1, key);
      CleanedIsLeft(PoolOf(r.server, key), w.cfg.ttl, ServerStale(generation), w.clock, before);
    }
    LeftOfLeft(ServerAtLoad(r, w, generation, key), PoolOf(swept.server, key), PoolOf(r.server, key));
  }

  lemma ClientAtLoadIsLeft(r: Registry, w: World, generation: int, version: int, key: ClientKey)
    requires DistinctRows(r.client)
    ensures IsLeft(ClientAtLoad(r, w, generation, version, key), PoolOf(r.client, key))
  {
    hide SweptRows, AtLoad, IsLeft, DistinctRows, PoolOf, Cleaned;
    var swept := Swept(r, w.cfg, generation, w.clock);
    var at := AtLoadPool(swept.client, key, ClientRules(w.cfg, version, w.cfg.maxTools), w.clock, swept.now);
    CleanedIsLeft(PoolOf(swept.client, key), w.cfg.ttl, ClientStale(version), w.clock, at);
    if w.clock(r.now) - r.lastSweep < SWEEP_MIN_INTERVAL_SECONDS {
      AllIsLeft(PoolOf(r.client, key));
    } else {
      var server := SweptRows(r.server, w.cfg.ttl, ServerStale(generation), w.clock, r.now + 1);
      var before := SweptPool(r.client, w.cfg.ttl, ClientStale(0), w.clock, server.now, key);
      CleanedIsLeft(PoolOf(r.client, key), w.cfg.ttl, ClientStale(0), w.clock, before);
    }
    LeftOfLeft(ClientAtLoad(r, w, generation, version, key), PoolOf(swept.client, key), PoolOf(r.client, key));
  }

  lemma NothingLeft<B>(left: seq<Entry<B>>, loaded: seq<Entry<B>>)
    requires IsLeft(left, loaded) && loaded == []
    ensures left == []
  {
  }

  lemma DistinctOf(r: Registry, w: World)
    requires Invariant(r, w)
    ensures DistinctRows(r.server) && DistinctRows(r.client)
  {
  }

  /** An autoload under a key with no tools is a load into an empty pool. */
  lemma AutoloadIntoEmpty(r: Registry, w: World, generation: int, key: ServerKey, refs: seq<ToolReference>)
      returns (s: Scope<ServerBinding>, now: nat)
    requires Invariant(r, w) && NonDecreasing(w.clock) && PoolOf(r.server, key) == []
    ensures var result := Autoloaded(r, w.cfg, generation, Some(key), refs, w.cfg.maxTools, w.clock);
            var load := AddedAll(s, ServerItems(refs, generation), w.cfg.maxTools, w.clock, now);
      && s.loaded == [] && PoolOf(result.0.server, key) == load.scope.loaded && result.1 == Taken(refs, load.oks)
  {
    hide Swept, Filled, AddedAll, AtLoad, Invariant, PoolOf, DistinctRows, IsLeft, CappedBeside;
    DistinctOf(r, w);
    ServerAtLoadIsLeft(r, w, generation, key);
    NothingLeft(ServerAtLoad(r, w, generation, key), PoolOf(r.server, key));
    AutoloadFillsTheTable(r, w, generation, key, refs, w.cfg.maxTools);
    var swept := Swept(r, w.cfg, generation, w.clock);
    var (scope, start) := AtLoad(swept.server, key, ServerRules(w.cfg, generation, w.cfg.maxTools), w.clock, swept.now);
    s, now := scope, start;
  }

  lemma ClientAutoloadIntoEmpty(r: Registry, w: World, generation: int, version: int, key: ClientKey,
                                refs: seq<ClientReference>)
      returns (s: Scope<ClientBinding>, now: nat)
    requires Invariant(r, w) && NonDecreasing(w.clock) && PoolOf(r.client, key) == []
    ensures var result := AutoloadedClient(r, w.cfg, generation, version, Some(key), refs, w.cfg.maxTools, w.clock);
            var load := AddedAll(s, ClientItems(refs, key.device, version), w.cfg.maxTools, w.clock, now);
      && s.loaded == [] && PoolOf(result.0.client, key) == load.scope.loaded && result.1 == Taken(refs, load.oks)
  {
    hide Swept, Filled, AddedAll, AtLoad, Invariant, PoolOf, DistinctRows, IsLeft, CappedBeside;
    DistinctOf(r, w);
    ClientAtLoadIsLeft(r, w, generation, version, key);
    NothingLeft(ClientAtLoad(r, w, generation, version, key), PoolOf(r.client, key));
    ClientAutoloadFillsTheTable(r, w, generation, version, key, refs, w.cfg.maxTools);
    var swept := Swept(r, w.cfg, generation, w.clock);
    var (scope, start) := AtLoad(swept.client, key, ClientRules(w.cfg, version, w.cfg.maxTools), w.clock, swept.now);
    s, now := scope, start;
  }

  // ---------------------------------------------------------------- the server half

  predicate Plain(s: string) {
    s != "" && Strip(s) == s
  }

  predicate PlainEntry(e: Entry<ServerBinding>) {
    Plain(e.key) && Plain(e.binding.toolName) && Plain(e.binding.serverName)
  }

  predicate AllPlain(loaded: seq<Entry<ServerBinding>>) {
    forall i :: 0 <= i < |loaded| ==> PlainEntry(loaded[i])
  }

  /** The tools with the generation of the process that restores them. */
  function Restamped(loaded: seq<Entry<ServerBinding>>, generation: int): (items: seq<Item<ServerBinding>>)
    ensures |items| == |loaded|
    ensures forall i :: 0 <= i < |loaded| ==>
      items[i] == Item(loaded[i].key, loaded[i].binding.(generation := generation))
  {
    seq(|loaded|, i requires 0 <= i < |loaded| => Item(loaded[i].key, loaded[i].binding.(generation := generation)))
  }

  /** The reference of one entry, if it has one. */
  lemma OneServerRef(before: seq<ServerEntry>, e: Entry<ServerBinding>, sameRuntime: bool, generation: int)
    requires sameRuntime ==> e.binding.generation == generation
    ensures var entry := ServerEntry(e.binding.toolName, e.binding.serverName, e.key, e.binding.generation);
            var refs := RestorableServer(before, sameRuntime, generation);
            var more := RestorableServer(before + [entry], sameRuntime, generation);
      || (more == refs && !PlainEntry(e))
      || (exists ref :: more == refs + [ref]
            && (ServerItem(ref, generation) == Item(e.key, e.binding.(generation := generation)) <==> PlainEntry(e)))
  {
    hide Strip;
    var entry := ServerEntry(e.binding.toolName, e.binding.serverName, e.key, e.binding.generation);
    assert (before + [entry])[..|before|] == before;
    if Strip(entry.toolName) != "" && Strip(entry.serverName) != "" {
      var ref := ToolReference(Strip(entry.toolName), Strip(entry.serverName),
                               if entry.callName != "" then Some(Strip(entry.callName)) else None);
      assert RestorableServer(before + [entry], sameRuntime, generation)
        == RestorableServer(before, sameRuntime, generation) + [ref];
    } else {
      assert RestorableServer(before + [entry], sameRuntime, generation)
        == RestorableServer(before, sameRuntime, generation);
    }
  }

  /** The references of a snapshot stand for exactly its tools when no name has blanks around it
      and none is empty. */
  lemma {:induction false} ServerRefsMatch(loaded: seq<Entry<ServerBinding>>, sameRuntime: bool, generation: int)
    requires sameRuntime ==> forall i :: 0 <= i < |loaded| ==> loaded[i].binding.generation == generation
    ensures var refs := RestorableServer(ServerEntries(loaded), sameRuntime, generation);
      && |refs| <= |loaded|
      && (ServerItems(refs, generation) == Restamped(loaded, generation) <==> AllPlain(loaded))
  {
    hide PlainEntry, RestorableServer, ServerItem, ServerItems, Restamped, AllPlain, ServerEntries;
    if loaded == [] {
      NoServerRefs(loaded, sameRuntime, generation);
    } else {
      var init, e := loaded[..|loaded| - 1], loaded[|loaded| - 1];
      assert loaded == init + [e];
      ServerRefsMatch(init, sameRuntime, generation);
      OneServerRef(ServerEntries(init), e, sameRuntime, generation);
      ServerAppend(init, e, generation);
      var wanted := Item(e.key, e.binding.(generation := generation));
      var before := RestorableServer(ServerEntries(init), sameRuntime, generation);
      var refs := RestorableServer(ServerEntries(loaded), sameRuntime, generation);
      if |refs| > |before| {
        var ref :| refs == before + [ref]
          && (ServerItem(ref, generation) == wanted <==> PlainEntry(e));
        ServerItemsAppend(before, ref, generation);
        SameEnds(ServerItems(before, generation), Restamped(init, generation), ServerItem(ref, generation), wanted);
      } else {
        assert |ServerItems(refs, generation)| < |Restamped(loaded, generation)|;
      }
    }
  }

  lemma ServerAppend(init: seq<Entry<ServerBinding>>, e: Entry<ServerBinding>, generation: int)
    ensures ServerEntries(init + [e])
         == ServerEntries(init) + [ServerEntry(e.binding.toolName, e.binding.serverName, e.key, e.binding.generation)]
    ensures Restamped(init + [e], generation)
         == Restamped(init, generation) + [Item(e.key, e.binding.(generation := generation))]
    ensures AllPlain(init + [e]) <==> AllPlain(init) && PlainEntry(e)
  {
    hide PlainEntry;
    assert (init + [e])[..|init|] == init;
    assert forall i :: 0 <= i < |init| ==> (init + [e])[i] == init[i];
    assert (init + [e])[|init|] == e;
  }

  lemma ServerItemsAppend(refs: seq<ToolReference>, ref: ToolReference, generation: int)
    ensures ServerItems(refs + [ref], generation) == ServerItems(refs, generation) + [ServerItem(ref, generation)]
  {
    assert (refs + [ref])[..|refs|] == refs;
  }

  lemma NoServerRefs(loaded: seq<Entry<ServerBinding>>, sameRuntime: bool, generation: int)
    requires loaded == []
    ensures RestorableServer(ServerEntries(loaded), sameRuntime, generation) == []
    ensures Restamped(loaded, generation) == ServerItems([], generation) && AllPlain(loaded)
  {
  }

  lemma SameEnds<T>(a: seq<T>, b: seq<T>, x: T, y: T)
    ensures a + [x] == b + [y] <==> a == b && x == y
  {
    if a + [x] == b + [y] {
      assert a == (a + [x])[..|a|] && (a + [x])[|a|] == x && (b + [y])[|b|] == y;
    }
  }

  /** What the server half of a snapshot holds: the tools that are left after its cleanup. */
  lemma SnapshotServerPool(r: Registry, w: World, generation: int, key: ServerKey, clientKey: Option<ClientKey>)
    requires DistinctKeys(PoolOf(r.server, key))
    ensures var taken := SnapshotTaken(r, w.cfg, generation, w.runtimeId, Some(key), clientKey, w.clock);
            var live := PoolOf(taken.0.server, key);
      && taken.1.runtimeId == w.runtimeId && taken.1.serverTools == ServerEntries(live)
      && DistinctKeys(live) && forall i :: 0 <= i < |live| ==> live[i].binding.generation == generation
  {
    hide Cleaned, ServerEntries, ClientEntries, WithScope, DistinctKeys;
    var i := FullRow(r.server, Some(key));
    if i >= 0 {
      var s := r.server[i].scope;
      var cleaned := Cleaned(s.loaded, w.cfg.ttl, ServerStale(generation), w.clock, r.now);
      PutIsFound(r.server, key, s.(loaded := cleaned));
      CleanedIsPart(s.loaded, w.cfg.ttl, ServerStale(generation), w.clock, r.now);
      CleanedIsCurrent(s.loaded, w.cfg.ttl, generation, w.clock, r.now);
    } else {
      NoneDistinct<ServerBinding>();
    }
  }

  lemma NoneDistinct<B>()
    ensures DistinctKeys<B>([])
  {
  }

  lemma {:induction false} CleanedIsCurrent(loaded: seq<Entry<ServerBinding>>, ttl: int, generation: int,
                                            clock: Readings, now: nat)
    ensures forall e :: e in Cleaned(loaded, ttl, ServerStale(generation), clock, now) ==>
      e.binding.generation == generation
  {
    if loaded != [] {
      CleanedIsCurrent(loaded[..|loaded| - 1], ttl, generation, clock, now);
    }
  }

  predicate Room(count: nat, max: int) {
    count == 0 || count <= max
  }

  /** Restoring a snapshot where the key has no tools gives back exactly the tools that were
      there, in their order, if and only if they fit and none of their names has blanks around
      it. In the same process the generation must be the one of the snapshot; in another process
      the tools come back under the generation of that process. */
  lemma ServerRoundTrip(r: Registry, w: World, generation: int, key: ServerKey, clientKey: Option<ClientKey>,
                        r': Registry, w': World, generation': int)
    requires DistinctKeys(PoolOf(r.server, key))
    requires Invariant(r', w') && NonDecreasing(w'.clock) && PoolOf(r'.server, key) == []
    requires w'.runtimeId == w.runtimeId ==> generation' == generation
    ensures var taken := SnapshotTaken(r, w.cfg, generation, w.runtimeId, Some(key), clientKey, w.clock);
            var live := PoolOf(taken.0.server, key);
            var restored := RestoredServer(r', w'.cfg, generation', w'.runtimeId, Some(key), taken.1, w'.clock);
            var back, wanted := Items(PoolOf(restored.0.server, key)), Restamped(live, generation');
      && (back == wanted <==> Room(|live|, w'.cfg.maxTools) && AllPlain(live))
      && (back == wanted ==> restored.1 == |live|)
      && (generation' == generation ==> wanted == Items(live))
  {
    hide SnapshotTaken, Autoloaded, AddedAll, DistinctKeys, PoolOf, Invariant, PlainEntry, RestorableServer;
    hide ServerItems, Restamped, Taken;
    SnapshotServerPool(r, w, generation, key, clientKey);
    var taken := SnapshotTaken(r, w.cfg, generation, w.runtimeId, Some(key), clientKey, w.clock);
    var live := PoolOf(taken.0.server, key);
    var same := w.runtimeId == w'.runtimeId;
    ServerRefsMatch(live, same, generation');
    RestampedIsDistinct(live, generation');
    var refs := RestorableServer(taken.1.serverTools, same, generation');
    var s, now := AutoloadIntoEmpty(r', w', generation', key, refs);
    var items, wanted := ServerItems(refs, generation'), Restamped(live, generation');
    FreshLoadIs(s, items, wanted, w'.cfg.maxTools, w'.clock, now);
    var load := AddedAll(s, items, w'.cfg.maxTools, w'.clock, now);
    if Items(load.scope.loaded) == wanted {
      AllTaken(refs, load.oks);
    }
    if generation' == generation {
      RestampedSame(live, generation);
    }
  }

  lemma RestampedIsDistinct(loaded: seq<Entry<ServerBinding>>, generation: int)
    requires DistinctKeys(loaded)
    ensures DistinctItems(Restamped(loaded, generation))
  {
  }

  lemma {:induction false} RestampedSame(loaded: seq<Entry<ServerBinding>>, generation: int)
    requires forall i :: 0 <= i < |loaded| ==> loaded[i].binding.generation == generation
    ensures Restamped(loaded, generation) == Items(loaded)
  {
    forall i | 0 <= i < |loaded|
      ensures Restamped(loaded, generation)[i] == Items(loaded)[i]
    {
      assert loaded[i].binding.(generation := generation) == loaded[i].binding;
    }
  }

  lemma {:induction false} OutdatedAreDropped(entries: seq<ServerEntry>, generation: int)
    requires forall i :: 0 <= i < |entries| ==> entries[i].generation != generation
    ensures RestorableServer(entries, true, generation) == []
  {
    if entries != [] {
      OutdatedAreDropped(entries[..|entries| - 1], generation);
    }
  }

  /** After a change of the generation, the process that took a snapshot restores no server tool
      from it: what the key holds afterwards, it held before. */
  lemma ReloadOutdatesSnapshots(r: Registry, w: World, generation: int, key: ServerKey, clientKey: Option<ClientKey>,
                                r': Registry, cfg: Settings, clock: Readings, generation': int)
    requires DistinctKeys(PoolOf(r.server, key)) && generation' != generation
    requires Invariant(r', World(cfg, w.runtimeId, clock)) && NonDecreasing(clock)
    ensures var snapshot := SnapshotTaken(r, w.cfg, generation, w.runtimeId, Some(key), clientKey, w.clock).1;
            var restored := RestoredServer(r', cfg, generation', w.runtimeId, Some(key), snapshot, clock);
            restored.1 == 0 && forall e :: e in PoolOf(restored.0.server, key) ==> e in PoolOf(r'.server, key)
  {
    hide SnapshotTaken, Swept, Filled, AtLoad, DistinctKeys, DistinctRows, PoolOf, Invariant;
    hide RestorableServer, CappedBeside;
    SnapshotServerPool(r, w, generation, key, clientKey);
    var taken := SnapshotTaken(r, w.cfg, generation, w.runtimeId, Some(key), clientKey, w.clock);
    OutdatedAreDropped(taken.1.serverTools, generation');
    var w' := World(cfg, w.runtimeId, clock);
    DistinctOf(r', w');
    ServerAtLoadIsLeft(r', w', generation', key);
    AutoloadFillsTheTable(r', w', generation', key, [], cfg.maxTools);
  }

  const BLANK_TOOL: Item<ServerBinding> := Item("search ", ServerBinding("search ", "web", 0))

  /** A tool whose name ends in a blank, loaded by the one call of a run: the snapshot has it, and
      what is restored from it anywhere the key has no tools is another tool. */
  lemma BlankAtTheEnd(w: World, r': Registry)
    requires w.cfg.ttl <= 0 && w.cfg.maxTools >= 1 && NonDecreasing(w.clock)
    requires Invariant(r', w) && PoolOf(r'.server, ServerKey("chat", "default")) == []
    ensures var key := ServerKey("chat", "default");
            var r := Run([Event(Autoload(Some("chat"), None, [ToolReference("search ", "web", None)]), 0)], w);
            var taken := SnapshotTaken(r, w.cfg, 0, w.runtimeId, Some(key), None, w.clock);
            var restored := RestoredServer(r', w.cfg, 0, w.runtimeId, Some(key), taken.1, w.clock);
      && Items(PoolOf(taken.0.server, key)) == [BLANK_TOOL] && Items(PoolOf(restored.0.server, key)) != [BLANK_TOOL]
  {
    hide RestoredServer, SnapshotTaken, Invariant, PoolOf, Run, Strip;
    var key := ServerKey("chat", "default");
    var r := Run([Event(Autoload(Some("chat"), None, [ToolReference("search ", "web", None)]), 0)], w);
    var tool := BlankLoaded(w);
    SnapshotHasIt(r, tool, w, key);
    OneIsDistinct(tool);
    ServerRoundTrip(r, w, 0, key, None, r', w, 0);
    OneItem(tool);
    NotStripped("search ");
    assert !PlainEntry([tool][0]);
  }

  lemma OneIsDistinct<B>(e: Entry<B>)
    ensures DistinctKeys([e])
  {
  }

  lemma OneItem<B>(e: Entry<B>)
    ensures Items([e]) == [Item(e.key, e.binding)]
  {
  }

  lemma BlankLoaded(w: World) returns (tool: Entry<ServerBinding>)
    requires w.cfg.maxTools >= 1 && NonDecreasing(w.clock)
    ensures var r := Run([Event(Autoload(Some("chat"), None, [ToolReference("search ", "web", None)]), 0)], w);
            PoolOf(r.server, ServerKey("chat", "default")) == [tool] && Item(tool.key, tool.binding) == BLANK_TOOL
  {
    hide Autoloaded, AddedAll, Invariant, PoolOf;
    var key, refs := ServerKey("chat", "default"), [ToolReference("search ", "web", None)];
    var e := Event(Autoload(Some("chat"), None, refs), 0);
    var none: seq<Event> := [];
    assert [e][..0] == none && [e][0] == e;
    var start := Run(none, w);
    EmptyIsOk(w, start.lastSweep, start.now);
    NoRows(start.server, key);
    var s, now := AutoloadIntoEmpty(start, w, 0, key, refs);
    var items := ServerItems(refs, 0);
    assert items[0] == ServerItem(refs[0], 0) == BLANK_TOOL;
    assert items == [BLANK_TOOL];
    AddedOne(s, BLANK_TOOL, w.cfg.maxTools, w.clock, now);
    tool := AddedAll(s, items, w.cfg.maxTools, w.clock, now).scope.loaded[0];
  }

  lemma SnapshotHasIt(r: Registry, tool: Entry<ServerBinding>, w: World, key: ServerKey)
    requires PoolOf(r.server, key) == [tool] && tool.binding.generation == 0 && w.cfg.ttl <= 0
    ensures PoolOf(SnapshotTaken(r, w.cfg, 0, w.runtimeId, Some(key), None, w.clock).0.server, key) == [tool]
  {
    hide ServerEntries, ClientEntries, RowIndex, WithScope;
    var i := RowIndex(r.server, key);
    assert [tool][..0] == [] && Cleaned([tool], w.cfg.ttl, ServerStale(0), w.clock, r.now) == [tool];
    PutIsFound(r.server, key, r.server[i].scope.(loaded := [tool]));
  }

  /** Stripping takes a blank at the end away. */
  lemma NotStripped(s: string)
    requires s != "" && s[|s| - 1] == ' '
    ensures Strip(s) != s
  {
    var before, after := StripSplit(s);
    assert IsSpace(' ');
  }

  // ---------------------------------------------------------------- the client half

  /** What a restore asks of a device tool: whole names, the device it was loaded for, and a
      catalog version that is not known to be another one. */
  predicate ReturnsTo(e: Entry<ClientBinding>, key: ClientKey, known: int) {
    && Plain(e.key) && Plain(e.binding.serverName)
    && e.binding.deviceId == key.device && Plain(key.device)
    && (Strip(key.session) == "" || Strip(key.session) == key.session)
    && !(known > 0 && e.binding.catalogVersion > 0 && e.binding.catalogVersion != known)
  }

  predicate AllReturn(loaded: seq<Entry<ClientBinding>>, key: ClientKey, known: int) {
    forall i :: 0 <= i < |loaded| ==> ReturnsTo(loaded[i], key, known)
  }

  lemma OneClientRef(before: seq<ClientEntry>, e: Entry<ClientBinding>, key: ClientKey, known: int, version: int)
    requires key.device != "" && key.session != ""
    ensures var entry := ClientEntry(e.key, e.binding.serverName, e.binding.deviceId, key.session,
                                     e.binding.catalogVersion, e.binding.toolInstanceId);
            var refs := RestorableClient(before, key.device, Some(key.session), known);
            var more := RestorableClient(before + [entry], key.device, Some(key.session), known);
      || (more == refs && !ReturnsTo(e, key, known))
      || (exists ref :: more == refs + [ref]
            && (ClientItem(ref, key.device, version) == Item(e.key, e.binding) <==> ReturnsTo(e, key, known)))
  {
    hide Strip;
    var entry := ClientEntry(e.key, e.binding.serverName, e.binding.deviceId, key.session,
                             e.binding.catalogVersion, e.binding.toolInstanceId);
    assert (before + [entry])[..|before|] == before;
    var refs := RestorableClient(before, key.device, Some(key.session), known);
    var more := RestorableClient(before + [entry], key.device, Some(key.session), known);
    if |more| > |refs| {
      var ref := more[|refs|];
      assert more == refs + [ref];
      assert ClientItem(ref, key.device, version) == Item(e.key, e.binding) <==> ReturnsTo(e, key, known);
    } else {
      assert more == refs;
    }
  }

  lemma {:induction false} ClientRefsMatch(loaded: seq<Entry<ClientBinding>>, key: ClientKey, known: int, version: int)
    requires key.device != "" && key.session != ""
    ensures var refs := RestorableClient(ClientEntries(loaded, key.session), key.device, Some(key.session), known);
      && |refs| <= |loaded|
      && (ClientItems(refs, key.device, version) == Items(loaded) <==> AllReturn(loaded, key, known))
  {
    hide ReturnsTo, RestorableClient, ClientItem, ClientItems, Items, AllReturn, ClientEntries;
    if loaded == [] {
      NoClientRefs(loaded, key, known, version);
    } else {
      var init, e := loaded[..|loaded| - 1], loaded[|loaded| - 1];
      assert loaded == init + [e];
      ClientRefsMatch(init, key, known, version);
      OneClientRef(ClientEntries(init, key.session), e, key, known, version);
      ClientAppend(init, e, key, known);
      var wanted := Item(e.key, e.binding);
      var before := RestorableClient(ClientEntries(init, key.session), key.device, Some(key.session), known);
      var refs := RestorableClient(ClientEntries(loaded, key.session), key.device, Some(key.session), known);
      if |refs| > |before| {
        var ref :| refs == before + [ref]
          && (ClientItem(ref, key.device, version) == wanted <==> ReturnsTo(e, key, known));
        ClientItemsAppend(before, ref, key.device, version);
        SameEnds(ClientItems(before, key.device, version), Items(init), ClientItem(ref, key.device, version), wanted);
      } else {
        assert |ClientItems(refs, key.device, version)| < |Items(loaded)|;
      }
    }
  }

  lemma NoClientRefs(loaded: seq<Entry<ClientBinding>>, key: ClientKey, known: int, version: int)
    requires loaded == []
    ensures RestorableClient(ClientEntries(loaded, key.session), key.device, Some(key.session), known) == []
    ensures Items(loaded) == [] == ClientItems([], key.device, version) && AllReturn(loaded, key, known)
  {
  }

  lemma {:induction false} ClientAppend(init: seq<Entry<ClientBinding>>, e: Entry<ClientBinding>, key: ClientKey,
                                        known: int)
    ensures ClientEntries(init + [e], key.session)
         == ClientEntries(init, key.session)
           + [ClientEntry(e.key, e.binding.serverName, e.binding.deviceId, key.session,
                                                            e.binding.catalogVersion, e.binding.toolInstanceId)]
    ensures Items(init + [e]) == Items(init) + [Item(e.key, e.binding)]
    ensures AllReturn(init + [e], key, known) <==> AllReturn(init, key, known) && ReturnsTo(e, key, known)
  {
    hide ReturnsTo, Items;
    assert (init + [e])[..|init|] == init;
    assert forall i :: 0 <= i < |init| ==> (init + [e])[i] == init[i];
    assert (init + [e])[|init|] == e;
  }

  lemma ClientItemsAppend(refs: seq<ClientReference>, ref: ClientReference, device: string, version: int)
    ensures ClientItems(refs + [ref], device, version)
         == ClientItems(refs, device, version) + [ClientItem(ref, device, version)]
  {
    assert (refs + [ref])[..|refs|] == refs;
  }

  lemma SnapshotClientPool(r: Registry, w: World, generation: int, serverKey: Option<ServerKey>, key: ClientKey)
    requires DistinctKeys(PoolOf(r.client, key))
    ensures var taken := SnapshotTaken(r, w.cfg, generation, w.runtimeId, serverKey, Some(key), w.clock);
            var live := PoolOf(taken.0.client, key);
      && taken.1.runtimeId == w.runtimeId && taken.1.clientTools == ClientEntries(live, key.session)
        && DistinctKeys(live)
  {
    hide Cleaned, ServerEntries, ClientEntries, WithScope, DistinctKeys, GotLoadedClient, PoolOf;
    var i := FullRow(r.server, serverKey);
    if i < 0 {
      ReadClientPool(r, w, key);
    } else {
      var s := r.server[i].scope;
      var cleaned := Cleaned(s.loaded, w.cfg.ttl, ServerStale(generation), w.clock, r.now);
      ReadClientPool(r.(server := WithScope(r.server, i, s.(loaded := cleaned)),
                        now := r.now + CleanupReads(|s.loaded|, w.cfg.ttl)), w, key);
    }
  }

  lemma ReadClientPool(r: Registry, w: World, key: ClientKey)
    requires DistinctKeys(PoolOf(r.client, key))
    ensures var (after, loaded) := GotLoadedClient(r, w.cfg, Some(key), w.clock);
            PoolOf(after.client, key) == loaded && DistinctKeys(loaded)
  {
    hide Cleaned, WithScope, DistinctKeys;
    var i := FullRow(r.client, Some(key));
    if i >= 0 {
      var s := r.client[i].scope;
      var cleaned := CleanedScope(s, w.cfg.ttl, ClientStale(0), w.clock, r.now);
      PutIsFound(r.client, key, cleaned.(lastActive := w.clock(r.now + CleanupReads(|s.loaded|, w.cfg.ttl))));
      CleanedIsPart(s.loaded, w.cfg.ttl, ClientStale(0), w.clock, r.now);
    } else {
      NoneDistinct<ClientBinding>();
    }
  }

  lemma ItemsDistinct<B>(loaded: seq<Entry<B>>)
    requires DistinctKeys(loaded)
    ensures DistinctItems(Items(loaded))
  {
  }

  /** Device tools come back, in the session the snapshot was taken in, with their keys and
      bindings and in their order, if and only if they fit and a restore takes every one. */
  lemma ClientRoundTrip(r: Registry, w: World, generation: int, conversation: Option<string>, agent: Option<string>,
                        device: Option<string>, session: Option<string>, active: Option<string>, key: ClientKey,
                        r': Registry, w': World, generation': int, session': Option<string>,
                         active': Option<string>, version: int)
    requires ReadKey(conversation, agent, device, session, active) == Some(key)
         == ReadKey(conversation, agent, device, session', active')
    requires DistinctKeys(PoolOf(r.client, key))
    requires Invariant(r', w') && NonDecreasing(w'.clock) && PoolOf(r'.client, key) == []
    ensures var taken := SnapshotTaken(r, w.cfg, generation, w.runtimeId, KeyFor(conversation, agent), Some(key),
                                       w.clock);
            var live := PoolOf(taken.0.client, key);
            var restored := RestoredClient(r', w'.cfg, generation', w'.runtimeId, conversation, agent, device, session',
                                           active',
                                           version, taken.1, w'.clock);
            var back := Items(PoolOf(restored.0.client, key));
            var known := if w.runtimeId == w'.runtimeId then version else 0;
      && (back == Items(live) <==> Room(|live|, w'.cfg.maxTools) && AllReturn(live, key, known))
      && (back == Items(live) ==> restored.1 == |live|)
  {
    hide SnapshotTaken, AutoloadedClient, AddedAll, DistinctKeys, Invariant, ReturnsTo, RestorableClient;
    hide ClientItems, Items, Taken, PoolOf, FirstSession;
    var serverKey := KeyFor(conversation, agent);
    SnapshotClientPool(r, w, generation, serverKey, key);
    var taken := SnapshotTaken(r, w.cfg, generation, w.runtimeId, serverKey, Some(key), w.clock);
    var live := PoolOf(taken.0.client, key);
    var known := if w.runtimeId == w'.runtimeId then version else 0;
    ClientRefsMatch(live, key, known, version);
    var refs := RestorableClient(taken.1.clientTools, device.value, Some(key.session), known);
    if refs == [] {
      NoItems<ClientBinding>(live);
      NoClientItems(refs, key.device, version);
    } else {
      var s, now := ClientAutoloadIntoEmpty(r', w', generation', version, key, refs);
      var items := ClientItems(refs, key.device, version);
      ItemsDistinct(live);
      FreshLoadIs(s, items, Items(live), w'.cfg.maxTools, w'.clock, now);
      var load := AddedAll(s, items, w'.cfg.maxTools, w'.clock, now);
      if Items(load.scope.loaded) == Items(live) {
        AllTaken(refs, load.oks);
      }
    }
  }

  lemma NoItems<B>(loaded: seq<Entry<B>>)
    ensures Items<B>([]) == []
    ensures Items(loaded) == [] <==> loaded == []
  {
  }

  lemma NoClientItems(refs: seq<ClientReference>, device: string, version: int)
    ensures refs == [] ==> ClientItems(refs, device, version) == []
  {
  }
}
