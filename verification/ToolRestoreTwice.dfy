/** Restoring a snapshot a second time: when it changes nothing, and what it can change. */
module ToolRestoreTwice {
  import opened Options
  import opened ToolScope
  import opened ToolRegistry
  import opened ToolRegistryRuns
  import opened LruRefinement
  import opened LruAutoload
  import opened LruWindow
  import opened ToolPools
  import opened ToolSnapshot

  /** What an autoload leaves under its key depends on the references and on the tools that are
      still there when it starts loading. */
  lemma RecentAfterAutoload(r: Registry, w: World, generation: int, key: ServerKey, refs: seq<ToolReference>)
    requires Regular(w) && Invariant(r, w) && PoolsFit(r, w)
    ensures var (after, taken) := Autoloaded(r, w.cfg, generation, Some(key), refs, w.cfg.maxTools, w.clock);
      && Invariant(after, w) && PoolsFit(after, w) && taken == refs
      && RecentTools(PoolOf(after.server, key))
         == ListAddAll(RecentTools(ServerAtLoad(r, w, generation, key)), ServerItems(refs, generation), w.cfg.maxTools)
  {
    hide Swept, Filled, Loading, AtLoad, Invariant, PoolsFit, PoolOf, ListAddAll, CappedBeside, AllFit, Fits, Recency;
    AutoloadFits(r, w, generation, Some(key), refs);
    AutoloadFillsTheTable(r, w, generation, key, refs, w.cfg.maxTools);
    SweptPoolsFit(r, w, generation);
    FitOfBoth(r, w);
    var swept := Swept(r, w.cfg, generation, w.clock);
    FitOfBoth(swept, w);
    var items, rules := ServerItems(refs, generation), ServerRules(w.cfg, generation, w.cfg.maxTools);
    FilledFits(swept.server, key, items, rules, Anything(), Anything(), w.clock, swept.now);
    AllTaken(refs, Loading(swept.server, key, items, rules, w.clock, swept.now).oks);
  }

  lemma RecentAfterClientAutoload(r: Registry, w: World, generation: int, version: int, key: ClientKey,
                                  refs: seq<ClientReference>)
    requires Regular(w) && Invariant(r, w) && PoolsFit(r, w)
    ensures var (after, taken) := AutoloadedClient(r, w.cfg, generation, version, Some(key), refs, w.cfg.maxTools,
                                                   w.clock);
      && Invariant(after, w) && PoolsFit(after, w) && taken == refs
      && RecentTools(PoolOf(after.client, key))
         == ListAddAll(RecentTools(ClientAtLoad(r, w, generation, version, key)),
                       ClientItems(refs, key.device, version), w.cfg.maxTools)
  {
    hide Swept, Filled, Loading, AtLoad, Invariant, PoolsFit, PoolOf, ListAddAll, CappedBeside, AllFit, Fits, Recency;
    ClientAutoloadFits(r, w, generation, version, Some(key), refs);
    ClientAutoloadFillsTheTable(r, w, generation, version, key, refs, w.cfg.maxTools);
    SweptPoolsFit(r, w, generation);
    FitOfBoth(r, w);
    var swept := Swept(r, w.cfg, generation, w.clock);
    FitOfBoth(swept, w);
    var items, rules := ClientItems(refs, key.device, version), ClientRules(w.cfg, version, w.cfg.maxTools);
    FilledFits(swept.client, key, items, rules, Anything(), Anything(), w.clock, swept.now);
    AllTaken(refs, Loading(swept.client, key, items, rules, w.clock, swept.now).oks);
  }

  /** A pool of a fitting table as a list. */
  lemma PoolIsList<K, B>(rows: seq<Row<K, B>>, key: K, max: nat, clock: Readings, now: nat)
    requires AllFit(rows, Anything(), Anything(), max, clock, now)
    ensures DistinctKeys(PoolOf(rows, key)) && DistinctItems(RecentTools(PoolOf(rows, key)))
         && |PoolOf(rows, key)| <= max
    ensures forall i :: 0 <= i < |RecentTools(PoolOf(rows, key))| ==>
      KeyIn(PoolOf(rows, key), RecentTools(PoolOf(rows, key))[i].key)
  {
    hide Recency, KeyIn;
    var loaded := PoolOf(rows, key);
    RecencyDistinct(loaded);
    var recent := RecentTools(loaded);
    forall i | 0 <= i < |recent|
      ensures KeyIn(loaded, recent[i].key)
    {
      ItemAt(recent, i);
      ItemsHaveKeys(Recency(loaded), recent[i].key);
      RecencyKeys(loaded, recent[i].key);
    }
  }

  /** The tools of the list that are not in the load survive up to the next one. */
  predicate OthersStay<B>(once: seq<Item<B>>, items: seq<Item<B>>, atLoad: seq<Entry<B>>) {
    forall i :: 0 <= i < |once| ==> once[i].key in ListKeys(items) || KeyIn(atLoad, once[i].key)
  }

  lemma TwiceOfLists<B>(start: seq<Item<B>>, once: seq<Item<B>>, loaded: seq<Entry<B>>, atLoad: seq<Entry<B>>,
                        items: seq<Item<B>>, max: nat)
    requires DistinctItems(start) && |start| <= max && max >= 1 && once == ListAddAll(start, items, max)
    requires IsLeft(atLoad, loaded) && DistinctKeys(loaded) && once == RecentTools(loaded)
    ensures ListAddAll(RecentTools(atLoad), items, max) == once <==> OthersStay(once, items, atLoad)
    ensures start == [] ==> OthersStay(once, items, atLoad)
  {
    hide Recency, ListAddAll, ListKeep, DistinctKeys, KeyIn, ListKeys;
    TwiceIsOnceIff(start, items, Among(atLoad), max);
    AddAllOk(start, items, max);
    NoListKeys<B>([]);
    forall i | 0 <= i < |once|
      ensures once[i].key in ListKeys(once)
    {
      HasListKey(once, i);
    }
  }

  /** A restore decides a pool that holds no other tools: whatever was there before, in whatever
      order and with whatever bindings, two registries agree on the key afterwards. */
  lemma RestoresAgree(r: Registry, r': Registry, w: World, generation: int, key: ServerKey, snapshot: Snapshot)
    requires Regular(w) && Invariant(r, w) && PoolsFit(r, w) && Invariant(r', w) && PoolsFit(r', w)
    requires var refs := RestorableServer(snapshot.serverTools, snapshot.runtimeId == w.runtimeId, generation);
      && NoOthers(ServerAtLoad(r, w, generation, key), ServerItems(refs, generation))
      && NoOthers(ServerAtLoad(r', w, generation, key), ServerItems(refs, generation))
    ensures var one := RestoredServer(r, w.cfg, generation, w.runtimeId, Some(key), snapshot, w.clock);
            var other := RestoredServer(r', w.cfg, generation, w.runtimeId, Some(key), snapshot, w.clock);
            one.1 == other.1 && RecentTools(PoolOf(one.0.server, key)) == RecentTools(PoolOf(other.0.server, key))
  {
    hide Autoloaded, Invariant, PoolsFit, PoolOf, RecentTools, ListAddAll, RestorableServer, ServerAtLoad;
    hide NoOthers, ServerItems;
    var refs := RestorableServer(snapshot.serverTools, snapshot.runtimeId == w.runtimeId, generation);
    RecentAfterAutoload(r, w, generation, key, refs);
    RecentAfterAutoload(r', w, generation, key, refs);
    LoadsLikeEmpty(r, w, generation, key, ServerItems(refs, generation));
    LoadsLikeEmpty(r', w, generation, key, ServerItems(refs, generation));
  }

  predicate NoOthers<B>(loaded: seq<Entry<B>>, items: seq<Item<B>>) {
    forall i :: 0 <= i < |loaded| ==> loaded[i].key in ListKeys(items)
  }

  lemma LoadsLikeEmpty(r: Registry, w: World, generation: int, key: ServerKey, items: seq<Item<ServerBinding>>)
    requires Regular(w) && Invariant(r, w) && PoolsFit(r, w) && NoOthers(ServerAtLoad(r, w, generation, key), items)
    ensures ListAddAll(RecentTools(ServerAtLoad(r, w, generation, key)), items, w.cfg.maxTools)
         == ListAddAll([], items, w.cfg.maxTools)
  {
    hide Invariant, PoolsFit, PoolOf, ListAddAll, ServerAtLoad, IsLeft, DistinctKeys, DistinctItems, AllFit;
    hide Recency, ListKeys, KeyIn;
    var start := ServerAtLoad(r, w, generation, key);
    FitOfBoth(r, w);
    PoolIsList(r.server, key, Max(w), w.clock, r.now);
    DistinctOf(r, w);
    ServerAtLoadIsLeft(r, w, generation, key);
    LeftIsList(start, PoolOf(r.server, key), Max(w));
    var list := RecentTools(start);
    forall k | k in ListKeys(list)
      ensures k in ListKeys(items)
    {
      ItemsHaveKeys(Recency(start), k);
      RecencyKeys(start, k);
      KeyAmong(list, start, items, k);
    }
    LoadingOverTheSame(list, items, w.cfg.maxTools);
  }

  lemma KeyAmong<B>(list: seq<Item<B>>, loaded: seq<Entry<B>>, items: seq<Item<B>>, key: string)
    requires key in ListKeys(list) && NoOthers(loaded, items)
    requires HasKey(list, key) ==> KeyIn(loaded, key)
    ensures key in ListKeys(items)
  {
  }

  /** Any snapshot, restored twice: the same tools, bindings and eviction order as after once, if
      and only if no other tool of the key has expired or gone stale when the second restore
      starts loading. So always where the key had no tools. */
  lemma ServerTwiceIff(r: Registry, w: World, generation: int, key: ServerKey, snapshot: Snapshot)
    requires Regular(w) && Invariant(r, w) && PoolsFit(r, w)
    ensures var once := RestoredServer(r, w.cfg, generation, w.runtimeId, Some(key), snapshot, w.clock);
            var twice := RestoredServer(once.0, w.cfg, generation, w.runtimeId, Some(key), snapshot, w.clock);
            var refs := RestorableServer(snapshot.serverTools, snapshot.runtimeId == w.runtimeId, generation);
            var before, after := RecentTools(PoolOf(once.0.server, key)), RecentTools(PoolOf(twice.0.server, key));
      && twice.1 == once.1
      && (after == before
          <==> OthersStay(before, ServerItems(refs, generation), ServerAtLoad(once.0, w, generation, key)))
      && (PoolOf(r.server, key) == [] ==> after == before)
  {
    hide Autoloaded, Invariant, PoolsFit, PoolOf, RecentTools, ListAddAll, RestorableServer, ServerAtLoad;
    hide IsLeft, OthersStay;
    hide DistinctKeys, DistinctItems, KeyIn, DistinctRows, AllFit, ServerItems;
    var refs := RestorableServer(snapshot.serverTools, snapshot.runtimeId == w.runtimeId, generation);
    var items := ServerItems(refs, generation);
    RecentAfterAutoload(r, w, generation, key, refs);
    var once := RestoredServer(r, w.cfg, generation, w.runtimeId, Some(key), snapshot, w.clock).0;
    RecentAfterAutoload(once, w, generation, key, refs);
    FitOfBoth(r, w);
    PoolIsList(r.server, key, Max(w), w.clock, r.now);
    FitOfBoth(once, w);
    PoolIsList(once.server, key, Max(w), w.clock, once.now);
    DistinctOf(r, w);
    DistinctOf(once, w);
    ServerAtLoadIsLeft(r, w, generation, key);
    ServerAtLoadIsLeft(once, w, generation, key);
    var start := ServerAtLoad(r, w, generation, key);
    LeftIsList(start, PoolOf(r.server, key), Max(w));
    TwiceOfLists(RecentTools(start), RecentTools(PoolOf(once.server, key)), PoolOf(once.server, key),
                 ServerAtLoad(once, w, generation, key), items, w.cfg.maxTools);
  }

  lemma LeftIsList<B>(left: seq<Entry<B>>, loaded: seq<Entry<B>>, max: nat)
    requires IsLeft(left, loaded) && DistinctKeys(loaded) && DistinctItems(RecentTools(loaded)) && |loaded| <= max
    ensures DistinctItems(RecentTools(left)) && |RecentTools(left)| <= max
    ensures loaded == [] ==> RecentTools(left) == []
  {
    hide Recency, ListKeep;
    KeepIsDistinct(RecentTools(loaded), Among(left));
    KeepIsAll(RecentTools(loaded), Among(left));
  }

  lemma ClientTwiceIff(r: Registry, w: World, generation: int, conversation: Option<string>, agent: Option<string>,
                       device: Option<string>, session: Option<string>, active: Option<string>, version: int,
                       key: ClientKey, snapshot: Snapshot)
    requires Regular(w) && Invariant(r, w) && PoolsFit(r, w)
    requires ReadKey(conversation, agent, device, session, active) == Some(key)
    ensures var once := RestoredClient(r, w.cfg, generation, w.runtimeId, conversation, agent, device, session, active,
                                       version,
                                       snapshot, w.clock);
            var twice := RestoredClient(once.0, w.cfg, generation, w.runtimeId, conversation, agent, device, session,
                                        active, version,
                                        snapshot, w.clock);
            var refs := RestorableClient(snapshot.clientTools, key.device, Some(key.session),
                                         if snapshot.runtimeId == w.runtimeId then version else 0);
            var before, after := RecentTools(PoolOf(once.0.client, key)), RecentTools(PoolOf(twice.0.client, key));
      && twice.1 == once.1
      && (after == before
          <==> refs == [] || OthersStay(before, ClientItems(refs, key.device, version),
                                        ClientAtLoad(once.0, w, generation, version, key)))
      && (PoolOf(r.client, key) == [] ==> after == before)
  {
    hide AutoloadedClient, Invariant, PoolsFit, PoolOf, RecentTools, ListAddAll, RestorableClient;
    hide ClientAtLoad, IsLeft, OthersStay;
    hide DistinctKeys, DistinctItems, KeyIn, DistinctRows, AllFit, ClientItems, FirstSession;
    var refs := RestorableClient(snapshot.clientTools, key.device, Some(key.session),
                                 if snapshot.runtimeId == w.runtimeId then version else 0);
    if refs != [] {
      var items := ClientItems(refs, key.device, version);
      RecentAfterClientAutoload(r, w, generation, version, key, refs);
      var once := AutoloadedClient(r, w.cfg, generation, version, Some(key), refs, w.cfg.maxTools, w.clock).0;
      RecentAfterClientAutoload(once, w, generation, version, key, refs);
      FitOfBoth(r, w);
      PoolIsList(r.client, key, Max(w), w.clock, r.now);
      FitOfBoth(once, w);
      PoolIsList(once.client, key, Max(w), w.clock, once.now);
      DistinctOf(r, w);
      DistinctOf(once, w);
      ClientAtLoadIsLeft(r, w, generation, version, key);
      ClientAtLoadIsLeft(once, w, generation, version, key);
      var start := ClientAtLoad(r, w, generation, version, key);
      LeftIsList(start, PoolOf(r.client, key), Max(w));
      TwiceOfLists(RecentTools(start), RecentTools(PoolOf(once.client, key)), PoolOf(once.client, key),
                   ClientAtLoad(once, w, generation, version, key), items, w.cfg.maxTools);
    }
  }
}
