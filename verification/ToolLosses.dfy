/** What can take a tool out of the pool of its key. */
module ToolLosses {
  // Over every run, a tool that was there and is gone was cleared, went stale or idle, was rebound
  // or evicted by a load under its own key, or its pool made room for a new one.

  import opened Options
  import opened ToolScope
  import opened ToolRegistry
  import opened ToolRegistryRuns
  import opened ToolTables
  import opened ToolSteps
  import opened ToolIsolation
  import opened ToolExpiry

  // ---------------------------------------------------------------- within a pool

  /** The tool is stale, or at one of these clock readings its entry had been unused for longer than the
      TTL. */
  ghost predicate Expired<B>(loaded: seq<Entry<B>>, item: Item<B>, ttl: int, stale: B -> bool, clock: Readings,
                             from: nat, until: nat) {
    || stale(item.binding)
    || exists e, k: nat :: e in loaded && e.key == item.key && e.binding == item.binding
                        && from <= k < until && Unused(e.lastUsed, ttl, clock(k))
  }

  /** The same key with another binding. */
  predicate Rebound<B(==)>(items: seq<Item<B>>, item: Item<B>) {
    exists i :: 0 <= i < |items| && items[i].key == item.key && items[i].binding != item.binding
  }

  /** What a cleanup takes out is stale, or idle at a reading the cleanup takes. */
  lemma {:induction false} CleanedLoses<B>(loaded: seq<Entry<B>>, ttl: int, stale: B -> bool, clock: Readings, at: nat,
                                           item: Item<B>)
    requires ScopeHas(loaded, item) && !ScopeHas(Cleaned(loaded, ttl, stale, clock, at), item)
    ensures Expired(loaded, item, ttl, stale, clock, at, at + CleanupReads(|loaded|, ttl))
  {
    hide ScopeHas, IsIdle, Unused;
    if loaded == [] {
      EmptyHasNothing(loaded, item);
    } else {
      var init, last := loaded[..|loaded| - 1], loaded[|loaded| - 1];
      assert loaded == init + [last];
      var kept := Cleaned(init, ttl, stale, clock, at);
      ScopeHasAppend(init, [last], item);
      ScopeHasAppend(kept, [last], item);
      assert kept + [] == kept;
      OneHas(last, item);
      if ScopeHas(init, item) {
        CleanedLoses(init, ttl, stale, clock, at, item);
        ExpiredMore(init, [last], item, ttl, stale, clock, at);
      } else {
        assert last in loaded;
        IdleIsUnused(last.lastUsed, ttl, clock(at + |loaded| - 1));
        NotUnusedWithoutTtl(last.lastUsed, ttl, clock(at + |loaded| - 1));
      }
    }
  }

  lemma NotUnusedWithoutTtl(since: real, ttl: int, now: real)
    ensures Unused(since, ttl, now) ==> ttl > 0
  {
  }

  lemma ExpiredMore<B>(init: seq<Entry<B>>, more: seq<Entry<B>>, item: Item<B>, ttl: int, stale: B -> bool,
                       clock: Readings, at: nat)
    requires Expired(init, item, ttl, stale, clock, at, at + CleanupReads(|init|, ttl))
    ensures Expired(init + more, item, ttl, stale, clock, at, at + CleanupReads(|init + more|, ttl))
  {
    hide Unused;
    if !stale(item.binding) {
      var e, k: nat :| e in init && e.key == item.key && e.binding == item.binding
                    && at <= k < at + CleanupReads(|init|, ttl) && Unused(e.lastUsed, ttl, clock(k));
      assert e in init + more;
    }
  }

  lemma {:induction false} CleanedEntry<B>(loaded: seq<Entry<B>>, ttl: int, stale: B -> bool, clock: Readings, at: nat,
                                           e: Entry<B>)
    ensures e in Cleaned(loaded, ttl, stale, clock, at) ==> e in loaded
  {
    hide Stays;
    if loaded != [] {
      CleanedEntry(loaded[..|loaded| - 1], ttl, stale, clock, at, e);
    }
  }

  /** An expiry within some readings, seen on what an earlier cleanup left. */
  lemma ExpiredWithin<B>(pool: seq<Entry<B>>, part: seq<Entry<B>>, item: Item<B>, ttl: int, stale: B -> bool,
                         clock: Readings,
                         from: nat, until: nat, first: nat, last: nat)
    requires Expired(part, item, ttl, stale, clock, from, until) && first <= from && until <= last
    requires forall e :: e in part ==> e in pool
    ensures Expired(pool, item, ttl, stale, clock, first, last)
  {
    hide Unused;
  }

  lemma {:induction false} MakeRoomLeaves<B>(loaded: seq<Entry<B>>, max: int)
    ensures |loaded| >= max ==> |MakeRoom(loaded, max)| >= max - 1
    decreases |loaded|
  {
    if |loaded| >= max && loaded != [] {
      MakeRoomLeaves(RemoveAt(loaded, LruIndex(loaded)), max);
    }
  }

  lemma ReplacedLoses<B>(loaded: seq<Entry<B>>, i: nat, e: Entry<B>, item: Item<B>)
    requires i < |loaded| && loaded[i].key != item.key
    ensures ScopeHas(loaded, item) ==> ScopeHas(loaded[i := e], item)
  {
    var after := loaded[i := e];
    if j :| 0 <= j < |loaded| && loaded[j].key == item.key && loaded[j].binding == item.binding {
      assert after[j] == loaded[j];
    }
  }

  lemma ReplacedHasIt<B>(loaded: seq<Entry<B>>, i: nat, e: Entry<B>, item: Item<B>)
    requires i < |loaded| && e.key == item.key && e.binding == item.binding
    ensures ScopeHas(loaded[i := e], item)
  {
    assert loaded[i := e][i] == e;
  }

  lemma AddedLoses<B>(s: Scope<B>, key: string, binding: B, max: int, clock: Readings, now: nat, item: Item<B>)
    ensures var after := Added(s, key, binding, max, clock, now).scope.loaded;
      && (ScopeHas(s.loaded, item) && !ScopeHas(after, item)
          ==> (key == item.key && binding != item.binding) || |after| >= max)
      && (|s.loaded| >= max ==> |after| >= max)
  {
    hide ScopeHas, MakeRoom;
    var i := IndexOf(s.loaded, key);
    MakeRoomLeaves(s.loaded, max);
    if i >= 0 {
      if key == item.key && binding == item.binding {
        ReplacedHasIt(s.loaded, i, s.loaded[i].(binding := binding, lastUsed := clock(now + 1)), item);
      } else if key != item.key {
        ReplacedLoses(s.loaded, i, s.loaded[i].(binding := binding, lastUsed := clock(now + 1)), item);
      }
    } else {
      MakeRoomFits(s.loaded, max);
      ScopeHasAppend(MakeRoom(s.loaded, max), [Entry(key, binding, clock(now + 1), clock(now + 2))], item);
    }
  }

  lemma MakeRoomFits<B>(loaded: seq<Entry<B>>, max: int)
    ensures |loaded| < max ==> MakeRoom(loaded, max) == loaded
  {
  }

  /** What loading takes out was rebound, or the pool is full. */
  lemma {:induction false} AddedAllLoses<B>(s: Scope<B>, items: seq<Item<B>>, max: int, clock: Readings, now: nat,
                                            item: Item<B>)
    requires ScopeHas(s.loaded, item) && !ScopeHas(AddedAll(s, items, max, clock, now).scope.loaded, item)
    ensures Rebound(items, item) || |AddedAll(s, items, max, clock, now).scope.loaded| >= max
  {
    hide ScopeHas, Added;
    if items != [] {
      var init, last := items[..|items| - 1], items[|items| - 1];
      var before := AddedAll(s, init, max, clock, now);
      AddedLoses(before.scope, last.key, last.binding, max, clock, before.now, item);
      assert items[|items| - 1] == last;
      if !ScopeHas(before.scope.loaded, item) {
        AddedAllLoses(s, init, max, clock, now, item);
        if i :| 0 <= i < |init| && init[i].key == item.key && init[i].binding != item.binding {
          assert items[i] == init[i];
        }
      }
    }
  }

  // ---------------------------------------------------------------- steps

  /** What, in one step, can take a tool out of the pool of its key. */
  ghost predicate Cause<K, B>(rows: seq<Row<K, B>>, step: TableStep<K, B>, cfg: Settings, clock: Readings, key: K,
                              item: Item<B>) {
    var pool := PoolOf(rows, key);
    || (step.sweep.Some? && Expired(pool, item, cfg.ttl, step.stale, clock, step.sweep.value, step.now))
    || match step.op
       case Drop(drop) => drop(key)
       case Look(whose, ttl, stale) =>
         whose == Some(key) && Expired(pool, item, ttl, stale, clock, step.now, EndOf(rows, step, cfg, clock))
       case Tidy(whose, ttl, stale) =>
         whose == Some(key) && Expired(pool, item, ttl, stale, clock, step.now, EndOf(rows, step, cfg, clock))
       case Fill(at, items, rules) =>
         if at != key then IsVictim(SweptBy(rows, step, cfg, clock), at, rules.maxScopes, key)
         else || Expired(pool, item, rules.ttl, rules.stale, clock, step.now, EndOf(rows, step, cfg, clock))
              || Rebound(items, item)
              || |PoolOf(After(rows, step, cfg, clock), key)| >= rules.maxTools
       case _ => false
  }

  lemma PoolHas<K, B>(rows: seq<Row<K, B>>, key: K, item: Item<B>)
    requires DistinctRows(rows)
    ensures RowsHave(rows, key, item) <==> ScopeHas(PoolOf(rows, key), item)
  {
    hide ScopeHas, RowIndex, PoolOf;
    NoRowNoPool(rows, key);
    if RowsHave(rows, key, item) {
      var i :| 0 <= i < |rows| && rows[i].key == key && ScopeHas(rows[i].scope.loaded, item);
      OneRow(rows, i, key);
    }
    if ScopeHas(PoolOf(rows, key), item) {
      if !HasRow(rows, key) {
        EmptyHasNothing(PoolOf(rows, key), item);
      } else {
        var i :| 0 <= i < |rows| && rows[i].key == key;
        OneRow(rows, i, key);
      }
    }
  }

  lemma {:induction false} AddingTakesTime<B>(s: Scope<B>, items: seq<Item<B>>, max: int, clock: Readings, now: nat)
    ensures AddedAll(s, items, max, clock, now).now >= now
  {
    hide MakeRoom, IndexOf;
    if items != [] {
      AddingTakesTime(s, items[..|items| - 1], max, clock, now);
    }
  }

  /** A load under a key, and what it takes out of the key's own pool. */
  lemma FilledLoses<K, B>(rows: seq<Row<K, B>>, key: K, items: seq<Item<B>>, rules: Rules<B>, clock: Readings, now: nat,
                          item: Item<B>)
    requires TableOk(rows, rules.maxScopes, clock, now) && NonDecreasing(clock) && rules.maxScopes >= 1
    requires ScopeHas(PoolOf(rows, key), item)
         && !ScopeHas(PoolOf(Filled(rows, key, items, rules, clock, now), key), item)
    ensures || Expired(PoolOf(rows, key), item, rules.ttl, rules.stale, clock, now,
                       Loading(rows, key, items, rules, clock, now).now)
            || Rebound(items, item)
            || |PoolOf(Filled(rows, key, items, rules, clock, now), key)| >= rules.maxTools
  {
    hide ScopeHas, PoolOf, Filled, AtLoad, AddedAll, Expired, Rebound, Cleaned, TableOk, Open;
    FilledIsThere(rows, key, items, rules, clock, now);
    var at := AtLoadPool(rows, key, rules, clock, now);
    var (scope, start) := AtLoad(rows, key, rules, clock, now);
    AddingTakesTime(scope, items, rules.maxTools, clock, start);
    if ScopeHas(scope.loaded, item) {
      AddedAllLoses(scope, items, rules.maxTools, clock, start, item);
    } else {
      var pool := PoolOf(rows, key);
      CleanedLoses(pool, rules.ttl, rules.stale, clock, at, item);
      ExpiredWithin(pool, pool, item, rules.ttl, rules.stale, clock, at, at + CleanupReads(|pool|, rules.ttl),
                    now, Loading(rows, key, items, rules, clock, now).now);
    }
  }

  /** A read or a tidying, and what it takes out. */
  lemma ReadLoses<K, B>(rows: seq<Row<K, B>>, whose: Option<K>, ttl: int, stale: B -> bool, clock: Readings, now: nat,
                        key: K, item: Item<B>)
    requires ScopeHas(PoolOf(rows, key), item)
    ensures !ScopeHas(PoolOf(ReadRow(rows, whose, ttl, stale, clock, now).rows, key), item) ==>
      whose == Some(key)
        && Expired(PoolOf(rows, key), item, ttl, stale, clock, now, ReadRow(rows, whose, ttl, stale, clock, now).now)
    ensures !ScopeHas(PoolOf(Tidied(rows, whose, ttl, stale, clock, now), key), item) ==>
      whose == Some(key) && Expired(PoolOf(rows, key), item, ttl, stale, clock, now, TidyEnd(rows, whose, ttl, now))
  {
    hide ScopeHas, PoolOf, ReadRow, Tidied, Expired, Cleaned, TidyEnd;
    ReadPool(rows, whose, ttl, stale, clock, now, key);
    var pool := PoolOf(rows, key);
    if whose == Some(key) && !ScopeHas(Cleaned(pool, ttl, stale, clock, now), item) {
      CleanedLoses(pool, ttl, stale, clock, now, item);
      var until := now + CleanupReads(|pool|, ttl);
      ExpiredWithin(pool, pool, item, ttl, stale, clock, now, until, now,
                    ReadRow(rows, whose, ttl, stale, clock, now).now);
    }
  }

  /** What a sweep leaves, and the window in which what it takes out expired. */
  lemma SweepLoses<K, B>(rows: seq<Row<K, B>>, step: TableStep<K, B>, cfg: Settings, clock: Readings, key: K,
                         item: Item<B>)
    requires StepOk(rows, step, cfg, clock) && ScopeHas(PoolOf(rows, key), item)
    ensures var swept := SweptBy(rows, step, cfg, clock);
      && (forall e :: e in PoolOf(swept, key) ==> e in PoolOf(rows, key))
      && (!ScopeHas(PoolOf(swept, key), item) ==>
            step.sweep.Some?
              && Expired(PoolOf(rows, key), item, cfg.ttl, step.stale, clock, step.sweep.value, step.now))
  {
    hide ScopeHas, PoolOf, SweptBy, Expired, Cleaned, StepOk;
    var at := SweptByPool(rows, step, cfg, clock, key);
    var pool, swept := PoolOf(rows, key), SweptBy(rows, step, cfg, clock);
    if step.sweep.Some? {
      forall e | e in PoolOf(swept, key)
        ensures e in pool
      {
        CleanedEntry(pool, cfg.ttl, step.stale, clock, at, e);
      }
      if !ScopeHas(PoolOf(swept, key), item) {
        CleanedLoses(pool, cfg.ttl, step.stale, clock, at, item);
        var until := at + CleanupReads(|pool|, cfg.ttl);
        ExpiredWithin(pool, pool, item, cfg.ttl, step.stale, clock, at, until, step.sweep.value, step.now);
      }
    }
  }

  lemma TouchLoses<K, B>(rows: seq<Row<K, B>>, whose: Option<K>, toolName: string, clock: Readings, now: nat, key: K,
                         item: Item<B>)
    requires ScopeHas(PoolOf(rows, key), item)
    ensures ScopeHas(PoolOf(Touched(rows, whose, toolName, clock, now), key), item)
  {
    hide ScopeHas, PoolOf, Touched, Got;
    TouchedPool(rows, whose, toolName, clock, now, key);
    GotHas(Scope(0.0, 0.0, PoolOf(rows, key)), toolName, clock, now, item);
  }

  /** One step takes a tool out of the pool of its key only for one of these causes. */
  lemma AfterLoses<K, B>(rows: seq<Row<K, B>>, step: TableStep<K, B>, cfg: Settings, clock: Readings, key: K,
                         item: Item<B>)
    requires StepOk(rows, step, cfg, clock)
    requires ScopeHas(PoolOf(rows, key), item) && !ScopeHas(PoolOf(After(rows, step, cfg, clock), key), item)
    ensures Cause(rows, step, cfg, clock, key, item)
  {
    hide ScopeHas, PoolOf, SweptBy, Expired, Filled, Loading, ReadRow, Tidied, Touched, Without, IsVictim;
    hide TableOk, DistinctRows, FullRow;
    hide Rebound, CappedBeside, SweptRows;
    var pool, swept := PoolOf(rows, key), SweptBy(rows, step, cfg, clock);
    SweepLoses(rows, step, cfg, clock, key, item);
    if ScopeHas(PoolOf(swept, key), item) {
      match step.op
      case Keep =>
      case Fill(at, items, rules) =>
        FillLoses(rows, step, cfg, clock, key, item);
      case Beside(isNew) =>
        TableIsBounded(swept, MaxScopes(cfg), clock, step.now);
        BesideIsSame(swept, isNew, cfg);
      case Look(whose, ttl, stale) =>
        ReadLoses(swept, whose, ttl, stale, clock, step.now, key, item);
        ExpiredWithin(pool, PoolOf(swept, key), item, ttl, stale, clock, step.now, EndOf(rows, step, cfg, clock),
                      step.now, EndOf(rows, step, cfg, clock));
      case Tidy(whose, ttl, stale) =>
        ReadLoses(swept, whose, ttl, stale, clock, step.now, key, item);
        ExpiredWithin(pool, PoolOf(swept, key), item, ttl, stale, clock, step.now, EndOf(rows, step, cfg, clock),
                      step.now, EndOf(rows, step, cfg, clock));
      case Touch(whose, toolName) => TouchLoses(swept, whose, toolName, clock, step.now, key, item);
      case Drop(drop) => WithoutPool(swept, drop, key);
    }
  }

  lemma TableIsBounded<K, B>(rows: seq<Row<K, B>>, maxScopes: nat, clock: Readings, now: nat)
    requires TableOk(rows, maxScopes, clock, now)
    ensures |rows| <= maxScopes
  {
  }

  lemma FillLoses<K, B>(rows: seq<Row<K, B>>, step: TableStep<K, B>, cfg: Settings, clock: Readings, key: K,
                        item: Item<B>)
    requires StepOk(rows, step, cfg, clock) && step.op.Fill?
    requires ScopeHas(PoolOf(SweptBy(rows, step, cfg, clock), key), item)
    requires forall e :: e in PoolOf(SweptBy(rows, step, cfg, clock), key) ==> e in PoolOf(rows, key)
    requires !ScopeHas(PoolOf(After(rows, step, cfg, clock), key), item)
    ensures Cause(rows, step, cfg, clock, key, item)
  {
    hide ScopeHas, PoolOf, SweptBy, Expired, Filled, Loading, IsVictim, TableOk, DistinctRows, Rebound, SweptRows;
    var pool, swept := PoolOf(rows, key), SweptBy(rows, step, cfg, clock);
    var at, items, rules := step.op.at, step.op.items, step.op.rules;
    if at != key {
      FilledElsewhere(swept, at, items, rules, clock, step.now, key);
    } else {
      FilledLoses(swept, key, items, rules, clock, step.now, item);
      var end := Loading(swept, at, items, rules, clock, step.now).now;
      if Expired(PoolOf(swept, key), item, rules.ttl, rules.stale, clock, step.now, end) {
        ExpiredWithin(pool, PoolOf(swept, key), item, rules.ttl, rules.stale, clock, step.now, end, step.now, end);
      }
    }
  }

  // ---------------------------------------------------------------- calls

  /** The call takes the server tool out of the pool of its key, and why. */
  ghost predicate Removes(r: Registry, e: Event, w: World, key: ServerKey, item: Item<ServerBinding>) {
    && RowsHave(r.server, key, item) && !RowsHave(Next(r, e, w).server, key, item)
    && Cause(r.server, ServerStep(r, e, w), w.cfg, w.clock, key, item)
  }

  ghost predicate RemovesClient(r: Registry, e: Event, w: World, key: ClientKey, item: Item<ClientBinding>) {
    && RowsHave(r.client, key, item) && !RowsHave(Next(r, e, w).client, key, item)
    && Cause(r.client, ClientStep(r, e, w), w.cfg, w.clock, key, item)
  }

  /** A call takes a tool away only for one of the causes. */
  lemma StepRemoves(r: Registry, e: Event, w: World, key: ServerKey, item: Item<ServerBinding>)
    requires Invariant(r, w) && NonDecreasing(w.clock)
    ensures RowsHave(r.server, key, item) && !RowsHave(Next(r, e, w).server, key, item) ==> Removes(r, e, w, key, item)
  {
    hide RowsHave, Next, ServerStep, After, Cause, TableOk, PoolOf, DistinctRows, ScopeHas;
    CallsAreSteps(r, e, w);
    ServerStepOk(r, e, w);
    StepKeeps(r, e, w);
    TableIsDistinct(r.server, MaxScopes(w.cfg), w.clock, r.now);
    TableIsDistinct(Next(r, e, w).server, MaxScopes(w.cfg), w.clock, Next(r, e, w).now);
    PoolHas(r.server, key, item);
    PoolHas(Next(r, e, w).server, key, item);
    if RowsHave(r.server, key, item) && !RowsHave(Next(r, e, w).server, key, item) {
      AfterLoses(r.server, ServerStep(r, e, w), w.cfg, w.clock, key, item);
    }
  }

  lemma ClientStepRemoves(r: Registry, e: Event, w: World, key: ClientKey, item: Item<ClientBinding>)
    requires Invariant(r, w) && NonDecreasing(w.clock)
    ensures RowsHave(r.client, key, item) && !RowsHave(Next(r, e, w).client, key, item)
         ==> RemovesClient(r, e, w, key, item)
  {
    hide RowsHave, Next, ClientStep, After, Cause, TableOk, PoolOf, DistinctRows, ScopeHas;
    CallsAreSteps(r, e, w);
    ClientStepOk(r, e, w);
    StepKeeps(r, e, w);
    TableIsDistinct(r.client, MaxScopes(w.cfg), w.clock, r.now);
    TableIsDistinct(Next(r, e, w).client, MaxScopes(w.cfg), w.clock, Next(r, e, w).now);
    PoolHas(r.client, key, item);
    PoolHas(Next(r, e, w).client, key, item);
    if RowsHave(r.client, key, item) && !RowsHave(Next(r, e, w).client, key, item) {
      AfterLoses(r.client, ClientStep(r, e, w), w.cfg, w.clock, key, item);
    }
  }

  // ---------------------------------------------------------------- runs

  /** Over every run, a server tool that was there at some time and is gone at the end was taken
      away by one of the calls since, for one of the causes. */
  lemma {:induction false} LossHasCause(events: seq<Event>, i: nat, w: World, key: ServerKey, item: Item<ServerBinding>)
    requires NonDecreasing(w.clock) && i <= |events|
    requires RowsHave(Run(events[..i], w).server, key, item) && !RowsHave(Run(events, w).server, key, item)
    ensures exists j :: i <= j < |events| && Removes(Run(events[..j], w), events[j], w, key, item)
    decreases |events| - i
  {
    hide RowsHave, Run, Removes, Invariant;
    assert events[..|events|] == events;
    if i < |events| {
      RunOneMore(events, i, w);
      TablesStayBounded(events[..i], w);
      StepRemoves(Run(events[..i], w), events[i], w, key, item);
      if RowsHave(Run(events[..i + 1], w).server, key, item) {
        LossHasCause(events, i + 1, w, key, item);
      }
    }
  }

  /** The same for device tools. */
  lemma {:induction false} ClientLossHasCause(events: seq<Event>, i: nat, w: World, key: ClientKey,
                                              item: Item<ClientBinding>)
    requires NonDecreasing(w.clock) && i <= |events|
    requires RowsHave(Run(events[..i], w).client, key, item) && !RowsHave(Run(events, w).client, key, item)
    ensures exists j :: i <= j < |events| && RemovesClient(Run(events[..j], w), events[j], w, key, item)
    decreases |events| - i
  {
    hide RowsHave, Run, RemovesClient, Invariant;
    assert events[..|events|] == events;
    if i < |events| {
      RunOneMore(events, i, w);
      TablesStayBounded(events[..i], w);
      ClientStepRemoves(Run(events[..i], w), events[i], w, key, item);
      if RowsHave(Run(events[..i + 1], w).client, key, item) {
        ClientLossHasCause(events, i + 1, w, key, item);
      }
    }
  }

  // ---------------------------------------------------------------- one device and another

  /** What loading for one key does to the device tools of another: nothing beyond the sweep,
      unless the key is new and the table full, and the other pool is the first of the least
      recently active and holds anything: then that pool is gone. */
  lemma OthersKeepToolsIff(r: Registry, e: Event, w: World, key: ClientKey)
    requires Invariant(r, w) && NonDecreasing(w.clock)
    requires ClientOrder(e, w).Some? && ClientOrder(e, w).value.key != key
    ensures var swept := Swept(r, w.cfg, e.generation, w.clock).client;
            var victim := IsVictim(swept, ClientOrder(e, w).value.key, MaxScopes(w.cfg), key);
      && PoolOf(Next(r, e, w).client, key) == (if victim then [] else PoolOf(swept, key))
      && (PoolOf(Next(r, e, w).client, key) == PoolOf(swept, key) <==> !victim || PoolOf(swept, key) == [])
  {
    hide Next, Swept, SweepIsDue, After, PoolOf, IsVictim, TableOk, ClientItems, ServerOrder, ClientOrder, SweptRows;
    var swept := Swept(r, w.cfg, e.generation, w.clock);
    var load := ClientLoad(ClientOrder(e, w).value, w);
    CallsAreSteps(r, e, w);
    SweepIsStep(r, e, w);
    SweptKeeps(r, w, e.generation);
    FilledElsewhere(swept.client, load.at, load.items, load.rules, w.clock, swept.now, key);
    FillsTheSwept(r, e, w);
  }

  lemma FillsTheSwept(r: Registry, e: Event, w: World)
    requires ClientOrder(e, w).Some?
    ensures var swept, load := Swept(r, w.cfg, e.generation, w.clock), ClientLoad(ClientOrder(e, w).value, w);
            var filled := Filled(swept.client, load.at, load.items, load.rules, w.clock, swept.now);
            After(r.client, ClientStep(r, e, w), w.cfg, w.clock) == filled
  {
    hide Swept, SweepIsDue, Filled, ClientItems, ClientOrder, SweptRows;
    SweepIsStep(r, e, w);
  }

  // ---------------------------------------------------------------- the failing run

  /** A load of one tool for a device of one conversation. */
  function LoadFor(device: string): Event {
    Event(AutoloadClient(Some("chat"), None, Some(device), Some("session"), None, 0,
                         [ClientReference("click", "screen", device, "session", None, "")]), 0)
  }

  function DeviceKey(device: string): ClientKey {
    ClientKey("chat", "default", device, "session")
  }

  function DeviceItem(device: string): Item<ClientBinding> {
    Item("click", ClientBinding("screen", device, 0, ""))
  }

  /** With a cap of one pool, loading for one device takes away the tool another one had just
      loaded in the same conversation, with no time gone by and room for many tools in each pool. */
  lemma OneDeviceEvictsAnother(one: string, other: string, w: World)
    requires one != "" && other != "" && one != other
    requires w.cfg.maxScopes == 1 && w.cfg.maxTools >= 1 && w.cfg.ttl <= 0 && forall i: nat :: w.clock(i) == 0.0
    ensures RowsHave(Run([LoadFor(one)], w).client, DeviceKey(one), DeviceItem(one))
    ensures !RowsHave(Run([LoadFor(one), LoadFor(other)], w).client, DeviceKey(one), DeviceItem(one))
  {
    hide Next, RowsHave, SweptRows, Swept, ClientOrder, PoolOf;
    var e, o := LoadFor(one), LoadFor(other);
    var start, first := Run([], w), Run([e], w);
    assert [e][..0] == [] && [e, o][..1] == [e];
    LoadOrder(one, w);
    LoadOrder(other, w);
    TablesStayBounded([], w);
    TablesStayBounded([e], w);
    TablesStayBounded([e, o], w);
    FirstLoad(one, w);
    StillIsSwept(first, o, w);
    assert IsVictim(first.client, DeviceKey(other), 1, DeviceKey(one)) by {
      SoleRow(first.client, DeviceKey(one), DeviceKey(other));
    }
    OthersKeepToolsIff(first, o, w, DeviceKey(one));
    TableIsDistinct(Run([e, o], w).client, MaxScopes(w.cfg), w.clock, Run([e, o], w).now);
    PoolHas(Run([e, o], w).client, DeviceKey(one), DeviceItem(one));
    EmptyHasNothing(PoolOf(Run([e, o], w).client, DeviceKey(one)), DeviceItem(one));
  }

  lemma LoadOrder(device: string, w: World)
    requires device != ""
    ensures var o := ClientOrder(LoadFor(device), w);
            o.Some? && o.value.key == DeviceKey(device)
              && ClientItems(o.value.refs, device, o.value.version) == [DeviceItem(device)]
  {
    var refs := [ClientReference("click", "screen", device, "session", None, "")];
    assert ClientItems(refs, device, 0) == [ClientItem(refs[0], device, 0)];
  }

  lemma StillIsSwept(r: Registry, e: Event, w: World)
    requires forall i: nat :: w.clock(i) == 0.0
    requires r.lastSweep == 0.0
    ensures Swept(r, w.cfg, e.generation, w.clock) == r.(now := r.now + 1)
  {
  }

  lemma SoleRow(rows: seq<Row<ClientKey, ClientBinding>>, key: ClientKey, at: ClientKey)
    requires |rows| == 1 && RowIndex(rows, key) >= 0 && key != at
    ensures IsVictim(rows, at, 1, key)
  {
  }

  /** The first load, in an empty registry. */
  lemma FirstLoad(device: string, w: World)
    requires device != ""
    requires w.cfg.maxScopes == 1 && w.cfg.maxTools >= 1 && w.cfg.ttl <= 0 && forall i: nat :: w.clock(i) == 0.0
    ensures var r := Run([LoadFor(device)], w);
      && |r.client| == 1 && RowIndex(r.client, DeviceKey(device)) >= 0 && r.lastSweep == 0.0
      && RowsHave(r.client, DeviceKey(device), DeviceItem(device))
  {
    hide Next, ClientOrder, RowsHave;
    var e := LoadFor(device);
    assert [e][..0] == [];
    var start := Run([], w);
    LoadOrder(device, w);
    TablesStayBounded([e], w);
    StillIsSwept(start, e, w);
    FirstFill(start, e, w, device);
  }

  lemma FirstFill(start: Registry, e: Event, w: World, device: string)
    requires w.cfg.maxScopes == 1 && w.cfg.maxTools >= 1 && w.cfg.ttl <= 0 && forall i: nat :: w.clock(i) == 0.0
    requires device != "" && e == LoadFor(device) && start == Registry([], [], 0.0, 1)
    ensures var r := Next(start, e, w);
      && |r.client| == 1 && RowIndex(r.client, DeviceKey(device)) >= 0 && r.lastSweep == 0.0
      && RowsHave(r.client, DeviceKey(device), DeviceItem(device))
  {
    hide RowsHave, ScopeHas, PoolOf, Swept, Filled, Loading, ClientItems, SweepIsDue, RowIndex;
    LoadOrder(device, w);
    StillIsSwept(start, e, w);
    EmptyIsOk(w, 0.0, 1);
    var key, items, rules := DeviceKey(device), [DeviceItem(device)], ClientRules(w.cfg, 0, w.cfg.maxTools);
    var now := 2;
    FilledIsThere(start.client, key, items, rules, w.clock, now);
    var r := Next(start, e, w);
    assert r.client == Filled(start.client, key, items, rules, w.clock, now);
    LoadingOne(key, DeviceItem(device), rules, w.clock, now);
    TableIsDistinct(r.client, rules.maxScopes, w.clock, Loading(start.client, key, items, rules, w.clock, now).now);
    PoolHas(r.client, key, DeviceItem(device));
  }

  lemma LoadingOne<K, B>(key: K, item: Item<B>, rules: Rules<B>, clock: Readings, now: nat)
    requires rules.maxTools >= 1
    ensures ScopeHas(Loading<K, B>([], key, [item], rules, clock, now).scope.loaded, item)
  {
    hide ScopeHas, CappedRows;
    var (scope, start) := AtLoad<K, B>([], key, rules, clock, now);
    assert scope.loaded == [];
    AddedOne(scope, item, rules.maxTools, clock, start);
    OneHas(Entry(item.key, item.binding, clock(start + 1), clock(start + 2)), item);
  }
}
