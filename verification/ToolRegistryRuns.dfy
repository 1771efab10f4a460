/** Runs of the registry: over each of them the tables stay bounded, no call fills a pool that is
    no longer in a table, and clearing a conversation takes its own pools and no others. */
module ToolRegistryRuns {
  import opened Options
  import opened ToolScope
  import opened ToolRegistry

  // ---------------------------------------------------------------- calls

  datatype Call =
    | Autoload(conversation: Option<string>, agent: Option<string>, refs: seq<ToolReference>)
    | AutoloadClient(conversation: Option<string>, agent: Option<string>, device: Option<string>,
                     session: Option<string>,
                     active: Option<string>, catalogVersion: int, clientRefs: seq<ClientReference>)
    | Read(conversation: Option<string>, agent: Option<string>)
    | ReadClient(conversation: Option<string>, agent: Option<string>, device: Option<string>, session: Option<string>,
                 active: Option<string>)
    | Use(conversation: Option<string>, agent: Option<string>, toolName: string)
    | TakeSnapshot(conversation: Option<string>, agent: Option<string>, device: Option<string>, session: Option<string>,
                   active: Option<string>)
    | RestoreServer(conversation: Option<string>, agent: Option<string>, snapshot: Snapshot)
    | RestoreClient(conversation: Option<string>, agent: Option<string>, device: Option<string>,
                    session: Option<string>,
                    active: Option<string>, catalogVersion: int, snapshot: Snapshot)
    | Clear(conversation: Option<string>, agent: Option<string>)
    | ClearAll

  /** A call and the MCP tools generation at its time. */
  datatype Event = Event(call: Call, generation: int)

  datatype World = World(cfg: Settings, runtimeId: string, clock: Readings)

  function Next(r: Registry, e: Event, w: World): Registry {
    match e.call
    case Autoload(c, a, refs) => Autoloaded(r, w.cfg, e.generation, KeyFor(c, a), refs, w.cfg.maxTools, w.clock).0
    case AutoloadClient(c, a, d, s, active, version, refs) =>
      AutoloadedClient(r, w.cfg, e.generation, version, AutoloadKey(c, a, d, s, refs, active), refs, w.cfg.maxTools,
                       w.clock).0
    case Read(c, a) => GotLoaded(r, w.cfg, e.generation, KeyFor(c, a), w.clock).0
    case ReadClient(c, a, d, s, active) => GotLoadedClient(r, w.cfg, ReadKey(c, a, d, s, active), w.clock).0
    case Use(c, a, toolName) => Used(r, KeyFor(c, a), toolName, w.clock).0
    case TakeSnapshot(c, a, d, s, active) =>
      SnapshotTaken(r, w.cfg, e.generation, w.runtimeId, KeyFor(c, a), ReadKey(c, a, d, s, active), w.clock).0
    case RestoreServer(c, a, snapshot) =>
      RestoredServer(r, w.cfg, e.generation, w.runtimeId, KeyFor(c, a), snapshot, w.clock).0
    case RestoreClient(c, a, d, s, active, version, snapshot) =>
      RestoredClient(r, w.cfg, e.generation, w.runtimeId, c, a, d, s, active, version, snapshot, w.clock).0
    case Clear(c, a) => Cleared(r, c, a).0
    case ClearAll => Registry([], [], w.clock(r.now), r.now + 1)
  }

  function Run(events: seq<Event>, w: World): Registry {
    if |events| == 0 then Registry([], [], w.clock(0), 1)
    else Next(Run(events[..|events| - 1], w), events[|events| - 1], w)
  }

  // ---------------------------------------------------------------- the cap and its victim

  /** Every pool was last active before each reading from `now` on. */
  ghost predicate ActiveBefore<K, B>(rows: seq<Row<K, B>>, clock: Readings, now: nat) {
    forall i, k: nat :: 0 <= i < |rows| && k >= now ==> rows[i].scope.lastActive <= clock(k)
  }

  predicate ActiveBy<K, B>(rows: seq<Row<K, B>>, t: real) {
    forall i :: 0 <= i < |rows| ==> rows[i].scope.lastActive <= t
  }

  /** The pool that is both newest and last in the table is never the victim, not even when
      others were active at the same instant. */
  lemma {:induction false} CapSparesNewest<K, B>(rows: seq<Row<K, B>>, row: Row<K, B>, max: nat)
    requires max >= 1 && ActiveBy(rows, row.scope.lastActive)
    ensures var r := CappedRows(rows + [row], max);
      && r != [] && r[|r| - 1] == row
      && (forall i :: 0 <= i < |r| - 1 ==> r[i] in rows)
    decreases |rows|
  {
    var all := rows + [row];
    if |all| > max {
      var quiet := QuietIndex(all);
      assert all[0] == rows[0] && all[|rows|] == row;
      assert quiet < |rows|;
      var rest := RemoveAt(rows, quiet);
      RemoveBeforeLast(rows, row, quiet);
      CapSparesNewest(rest, row, max);
    }
  }

  lemma RemoveBeforeLast<K, B>(rows: seq<Row<K, B>>, row: Row<K, B>, i: nat)
    requires i < |rows| && ActiveBy(rows, row.scope.lastActive)
    ensures RemoveAt(rows + [row], i) == RemoveAt(rows, i) + [row]
    ensures ActiveBy(RemoveAt(rows, i), row.scope.lastActive)
    ensures forall k :: 0 <= k < |rows| - 1 ==> RemoveAt(rows, i)[k] in rows
  {
    var rest := RemoveAt(rows, i);
    assert forall k :: 0 <= k < |rest| ==> rest[k] == rows[if k < i then k else k + 1];
  }

  lemma NewRowFound<K, B>(rows: seq<Row<K, B>>, row: Row<K, B>, max: nat)
    requires max >= 1 && ActiveBy(rows, row.scope.lastActive) && RowIndex(rows, row.key) < 0
    ensures var r := CappedRows(rows + [row], max);
            var i := RowIndex(r, row.key);
            i >= 0 && r[i] == row
  {
    CapSparesNewest(rows, row, max);
    var r := CappedRows(rows + [row], max);
    forall i | 0 <= i < |r| - 1
      ensures r[i].key != row.key
    {
      var j :| 0 <= j < |rows| && rows[j] == r[i];
    }
    var found := RowIndex(r, row.key);
    assert r[|r| - 1].key == row.key;
  }

  // ---------------------------------------------------------------- what every step keeps of a table

  predicate HasRow<K(==), B>(rows: seq<Row<K, B>>, key: K) {
    exists i :: 0 <= i < |rows| && rows[i].key == key
  }

  predicate DistinctRows<K(==), B>(rows: seq<Row<K, B>>) {
    forall i, j :: 0 <= i < j < |rows| ==> rows[i].key != rows[j].key
  }

  /** Within the cap, no key twice, and every pool last active before the readings to come. */
  ghost predicate TableOk<K, B>(rows: seq<Row<K, B>>, maxScopes: nat, clock: Readings, now: nat) {
    |rows| <= maxScopes && DistinctRows(rows) && ActiveBefore(rows, clock, now)
  }

  /** `part` has some of the keys of `rows`, in their order. */
  ghost predicate IsPart<K, B>(part: seq<Row<K, B>>, rows: seq<Row<K, B>>) {
    && |part| <= |rows|
    && (DistinctRows(rows) ==> DistinctRows(part))
    && (forall i :: 0 <= i < |part| ==> HasRow(rows, part[i].key))
  }

  lemma PartOneMore<K, B>(part: seq<Row<K, B>>, init: seq<Row<K, B>>, last: Row<K, B>, row: Row<K, B>)
    requires IsPart(part, init) && row.key == last.key
    ensures IsPart(part, init + [last]) && IsPart(part + [row], init + [last])
  {
    var rows, more := init + [last], part + [row];
    assert rows[|init|] == last && forall i :: 0 <= i < |init| ==> rows[i] == init[i];
    forall i | 0 <= i < |part|
      ensures HasRow(rows, part[i].key) && (DistinctRows(rows) ==> part[i].key != last.key)
    {
      var j :| 0 <= j < |init| && init[j].key == part[i].key;
      assert rows[j].key == part[i].key;
    }
    assert HasRow(rows, last.key);
  }

  lemma {:induction false} SweepIsPart<K, B>(rows: seq<Row<K, B>>, ttl: int, stale: B -> bool, clock: Readings,
                                             now: nat)
    ensures IsPart(SweptRows(rows, ttl, stale, clock, now).rows, rows)
    ensures SweptRows(rows, ttl, stale, clock, now).now >= now
  {
    hide Cleaned, IsAbandoned, IsPart;
    if rows == [] {
      SelfPart(rows);
    } else {
      var init, last := rows[..|rows| - 1], rows[|rows| - 1];
      SweepIsPart(init, ttl, stale, clock, now);
      var before := SweptRows(init, ttl, stale, clock, now);
      assert rows == init + [last];
      var cleaned := CleanedScope(last.scope, ttl, stale, clock, before.now);
      PartOneMore(before.rows, init, last, Row(last.key, cleaned));
      assert before.rows + [] == before.rows;
    }
  }

  lemma {:induction false} SweepKeeps<K, B>(rows: seq<Row<K, B>>, ttl: int, stale: B -> bool, clock: Readings,
                                            start: nat, now: nat)
    requires ActiveBefore(rows, clock, start)
    ensures ActiveBefore(SweptRows(rows, ttl, stale, clock, now).rows, clock, start)
  {
    hide Cleaned, IsAbandoned;
    if rows != [] {
      SweepKeeps(rows[..|rows| - 1], ttl, stale, clock, start, now);
    }
  }

  lemma SelfPart<K, B>(rows: seq<Row<K, B>>)
    ensures IsPart(rows, rows)
  {
  }

  lemma SweepKeepsTable<K, B>(rows: seq<Row<K, B>>, ttl: int, stale: B -> bool, maxScopes: nat, clock: Readings,
                              start: nat, now: nat)
    requires TableOk(rows, maxScopes, clock, start) && start <= now
    ensures var sweep := SweptRows(rows, ttl, stale, clock, now);
            sweep.now >= now && TableOk(sweep.rows, maxScopes, clock, start)
  {
    SweepKeeps(rows, ttl, stale, clock, start, now);
    SweepIsPart(rows, ttl, stale, clock, now);
  }

  lemma {:induction false} CapKeeps<K, B>(rows: seq<Row<K, B>>, maxScopes: nat, clock: Readings, now: nat)
    requires DistinctRows(rows) && ActiveBefore(rows, clock, now)
    ensures TableOk(CappedRows(rows, maxScopes), maxScopes, clock, now)
    decreases |rows|
  {
    if |rows| > maxScopes {
      var quiet := QuietIndex(rows);
      var rest := RemoveAt(rows, quiet);
      assert forall i :: 0 <= i < |rest| ==> rest[i] == rows[if i < quiet then i else i + 1];
      CapKeeps(rest, maxScopes, clock, now);
    }
  }

  lemma LaterIsFine<K, B>(rows: seq<Row<K, B>>, maxScopes: nat, clock: Readings, now: nat, later: nat)
    requires TableOk(rows, maxScopes, clock, now) && now <= later
    ensures TableOk(rows, maxScopes, clock, later)
  {
  }

  lemma WithScopeKeeps<K, B>(rows: seq<Row<K, B>>, i: int, scope: Scope<B>, maxScopes: nat, clock: Readings, now: nat)
    requires TableOk(rows, maxScopes, clock, now) && i < |rows|
    requires forall k: nat :: k >= now ==> scope.lastActive <= clock(k)
    ensures TableOk(WithScope(rows, i, scope), maxScopes, clock, now)
  {
  }

  /** A table grown by a pool created at this moment. */
  lemma GrownRows<K, B>(rows: seq<Row<K, B>>, row: Row<K, B>, clock: Readings, now: nat)
    requires DistinctRows(rows) && ActiveBefore(rows, clock, now) && NonDecreasing(clock)
    requires RowIndex(rows, row.key) < 0 && row.scope == NewScope(clock, now)
    ensures DistinctRows(rows + [row]) && ActiveBefore(rows + [row], clock, now + 2)
         && ActiveBy(rows, row.scope.lastActive)
    ensures forall k: nat :: k >= now + 2 ==> row.scope.lastActive <= clock(k)
  {
  }

  /** A pool just opened is in the table, within the cap. */
  lemma OpenedIsThere<K, B>(rows: seq<Row<K, B>>, key: K, maxScopes: nat, clock: Readings, now: nat)
    requires TableOk(rows, maxScopes, clock, now) && NonDecreasing(clock) && maxScopes >= 1
    ensures var o := Open(rows, key, maxScopes, clock, now);
      && TableOk(o.rows, maxScopes, clock, o.now)
      && o.index >= 0 && o.index == RowIndex(o.rows, key) && o.rows[o.index] == Row(key, o.scope)
      && (forall k: nat :: k >= o.now ==> o.scope.lastActive <= clock(k))
  {
    hide CappedRows, ActiveBy, RowIndex, NewScope, DistinctRows;
    if RowIndex(rows, key) < 0 {
      hide ActiveBefore;
      var row := Row(key, NewScope<B>(clock, now));
      GrownRows(rows, row, clock, now);
      NewRowFound(rows, row, maxScopes);
      CapKeeps(rows + [row], maxScopes, clock, now + 2);
    }
  }

  lemma {:induction false} AddedAllActive<B>(s: Scope<B>, items: seq<Item<B>>, maxTools: int, clock: Readings, now: nat)
    requires NonDecreasing(clock) && forall k: nat :: k >= now ==> s.lastActive <= clock(k)
    ensures var load := AddedAll(s, items, maxTools, clock, now);
            load.now >= now && forall k: nat :: k >= load.now ==> load.scope.lastActive <= clock(k)
  {
    hide MakeRoom;
    if items != [] {
      AddedAllActive(s, items[..|items| - 1], maxTools, clock, now);
    }
  }

  lemma PutIsFound<K, B>(rows: seq<Row<K, B>>, key: K, scope: Scope<B>)
    requires RowIndex(rows, key) >= 0
    ensures var i := RowIndex(rows, key);
            RowIndex(WithScope(rows, i, scope), key) == i && PoolOf(WithScope(rows, i, scope), key) == scope.loaded
  {
    var i := RowIndex(rows, key);
    var after := WithScope(rows, i, scope);
    assert forall j :: 0 <= j < |rows| ==> after[j].key == rows[j].key;
    assert RowIndex(after, key) == i;
  }

  /** A load fills a pool that is in the table afterwards. */
  lemma FilledIsThere<K, B>(rows: seq<Row<K, B>>, key: K, items: seq<Item<B>>, rules: Rules<B>, clock: Readings,
                            now: nat)
    requires TableOk(rows, rules.maxScopes, clock, now) && NonDecreasing(clock) && rules.maxScopes >= 1
    ensures var load := Loading(rows, key, items, rules, clock, now);
            var filled := Filled(rows, key, items, rules, clock, now);
      && load.now >= Open(rows, key, rules.maxScopes, clock, now).now
      && TableOk(filled, rules.maxScopes, clock, load.now)
      && RowIndex(filled, key) >= 0 && filled[RowIndex(filled, key)] == Row(key, load.scope)
      && PoolOf(filled, key) == load.scope.loaded
  {
    hide Open, Cleaned, AddedAll, TableOk, RowIndex, PoolOf;
    OpenedIsThere(rows, key, rules.maxScopes, clock, now);
    var o := Open(rows, key, rules.maxScopes, clock, now);
    var (scope, start) := AtLoad(rows, key, rules, clock, now);
    AddedAllActive(scope, items, rules.maxTools, clock, start);
    var load := Loading(rows, key, items, rules, clock, now);
    LaterIsFine(o.rows, rules.maxScopes, clock, o.now, load.now);
    WithScopeKeeps(o.rows, o.index, load.scope, rules.maxScopes, clock, load.now);
    PutIsFound(o.rows, key, load.scope);
  }

  lemma ReadKeeps<K, B>(rows: seq<Row<K, B>>, key: Option<K>, ttl: int, stale: B -> bool, maxScopes: nat,
                        clock: Readings, now: nat)
    requires TableOk(rows, maxScopes, clock, now) && NonDecreasing(clock)
    ensures var read := ReadRow(rows, key, ttl, stale, clock, now);
            read.now >= now && TableOk(read.rows, maxScopes, clock, read.now)
  {
    hide Cleaned, TableOk;
    var i := FullRow(rows, key);
    if i >= 0 {
      var later := now + CleanupReads(|rows[i].scope.loaded|, ttl);
      LaterIsFine(rows, maxScopes, clock, now, later + 1);
      var cleaned := CleanedScope(rows[i].scope, ttl, stale, clock, now);
      WithScopeKeeps(rows, i, cleaned.(lastActive := clock(later)), maxScopes, clock, later + 1);
    }
  }

  // ---------------------------------------------------------------- what every call keeps

  ghost predicate Invariant(r: Registry, w: World) {
    && r.now >= 1
    && TableOk(r.server, MaxScopes(w.cfg), w.clock, r.now) && TableOk(r.client, MaxScopes(w.cfg), w.clock, r.now)
  }

  lemma SweptKeeps(r: Registry, w: World, generation: int)
    requires Invariant(r, w)
    ensures Invariant(Swept(r, w.cfg, generation, w.clock), w)
    ensures Swept(r, w.cfg, generation, w.clock).now > r.now
  {
    hide TableOk, SweptRows;
    var server := SweptRows(r.server, w.cfg.ttl, ServerStale(generation), w.clock, r.now + 1);
    SweepKeepsTable(r.server, w.cfg.ttl, ServerStale(generation), MaxScopes(w.cfg), w.clock, r.now, r.now + 1);
    SweepKeepsTable(r.client, w.cfg.ttl, ClientStale(0), MaxScopes(w.cfg), w.clock, r.now, server.now);
    var swept := Swept(r, w.cfg, generation, w.clock);
    LaterIsFine(swept.server, MaxScopes(w.cfg), w.clock, r.now, swept.now);
    LaterIsFine(swept.client, MaxScopes(w.cfg), w.clock, r.now, swept.now);
  }

  lemma BesideKeeps<K, B>(rows: seq<Row<K, B>>, isNew: bool, cfg: Settings, clock: Readings, now: nat, later: nat)
    requires TableOk(rows, MaxScopes(cfg), clock, now) && now <= later
    ensures TableOk(CappedBeside(rows, isNew, cfg), MaxScopes(cfg), clock, later)
  {
    CapKeeps(rows, MaxScopes(cfg), clock, now);
    LaterIsFine(CappedBeside(rows, isNew, cfg), MaxScopes(cfg), clock, now, later);
  }

  /** An autoload fills a pool that is in the table afterwards, holding what was loaded. */
  lemma AutoloadFillsTheTable(r: Registry, w: World, generation: int, key: ServerKey, refs: seq<ToolReference>,
                              maxTools: int)
    requires Invariant(r, w) && NonDecreasing(w.clock)
    ensures var after := Autoloaded(r, w.cfg, generation, Some(key), refs, maxTools, w.clock).0;
            var swept := Swept(r, w.cfg, generation, w.clock);
            var load := Loading(swept.server, key, ServerItems(refs, generation),
                                ServerRules(w.cfg, generation, maxTools), w.clock, swept.now);
      && Invariant(after, w)
      && RowIndex(after.server, key) >= 0 && after.server[RowIndex(after.server, key)] == Row(key, load.scope)
      && PoolOf(after.server, key) == load.scope.loaded
  {
    hide Swept, Loading, Filled, TableOk, RowIndex, PoolOf, CappedBeside, Open;
    SweptKeeps(r, w, generation);
    var swept := Swept(r, w.cfg, generation, w.clock);
    var items, rules := ServerItems(refs, generation), ServerRules(w.cfg, generation, maxTools);
    FilledIsThere(swept.server, key, items, rules, w.clock, swept.now);
    var load := Loading(swept.server, key, items, rules, w.clock, swept.now);
    BesideKeeps(swept.client, RowIndex(swept.server, key) < 0, w.cfg, w.clock, swept.now, load.now);
  }

  lemma ClientAutoloadFillsTheTable(r: Registry, w: World, generation: int, version: int, key: ClientKey,
                                    refs: seq<ClientReference>,
                                    maxTools: int)
    requires Invariant(r, w) && NonDecreasing(w.clock)
    ensures var after := AutoloadedClient(r, w.cfg, generation, version, Some(key), refs, maxTools, w.clock).0;
            var swept := Swept(r, w.cfg, generation, w.clock);
            var load := Loading(swept.client, key, ClientItems(refs, key.device, version),
                                ClientRules(w.cfg, version, maxTools), w.clock,
                                swept.now);
      && Invariant(after, w)
      && RowIndex(after.client, key) >= 0 && after.client[RowIndex(after.client, key)] == Row(key, load.scope)
      && PoolOf(after.client, key) == load.scope.loaded
  {
    hide Swept, Loading, Filled, TableOk, RowIndex, PoolOf, CappedBeside, Open;
    SweptKeeps(r, w, generation);
    var swept := Swept(r, w.cfg, generation, w.clock);
    var items, rules := ClientItems(refs, key.device, version), ClientRules(w.cfg, version, maxTools);
    FilledIsThere(swept.client, key, items, rules, w.clock, swept.now);
    var load := Loading(swept.client, key, items, rules, w.clock, swept.now);
    BesideKeeps(swept.server, RowIndex(swept.client, key) < 0, w.cfg, w.clock, swept.now, load.now);
  }

  lemma ClientReadKeeps(r: Registry, w: World, key: Option<ClientKey>)
    requires Invariant(r, w) && NonDecreasing(w.clock)
    ensures Invariant(GotLoadedClient(r, w.cfg, key, w.clock).0, w)
  {
    hide TableOk, ReadRow;
    ReadKeeps(r.client, key, w.cfg.ttl, ClientStale(0), MaxScopes(w.cfg), w.clock, r.now);
    var read := ReadRow(r.client, key, w.cfg.ttl, ClientStale(0), w.clock, r.now);
    LaterIsFine(r.server, MaxScopes(w.cfg), w.clock, r.now, read.now);
  }

  lemma ServerReadKeeps(r: Registry, w: World, generation: int, key: Option<ServerKey>)
    requires Invariant(r, w) && NonDecreasing(w.clock)
    ensures Invariant(GotLoaded(r, w.cfg, generation, key, w.clock).0, w)
  {
    hide TableOk, ReadRow;
    ReadKeeps(r.server, key, w.cfg.ttl, ServerStale(generation), MaxScopes(w.cfg), w.clock, r.now);
    var read := ReadRow(r.server, key, w.cfg.ttl, ServerStale(generation), w.clock, r.now);
    LaterIsFine(r.client, MaxScopes(w.cfg), w.clock, r.now, read.now);
  }

  lemma UseKeeps(r: Registry, w: World, key: Option<ServerKey>, toolName: string)
    requires Invariant(r, w) && NonDecreasing(w.clock)
    ensures Invariant(Used(r, key, toolName, w.clock).0, w)
  {
    hide TableOk;
    var i := FullRow(r.server, key);
    if i >= 0 {
      var step := Got(r.server[i].scope, toolName, w.clock, r.now);
      LaterIsFine(r.server, MaxScopes(w.cfg), w.clock, r.now, step.now);
      LaterIsFine(r.client, MaxScopes(w.cfg), w.clock, r.now, step.now);
      WithScopeKeeps(r.server, i, step.scope, MaxScopes(w.cfg), w.clock, step.now);
    }
  }

  /** A cleanup that does not touch the pool. */
  lemma CleanedInPlaceKeeps(r: Registry, w: World, generation: int, i: nat)
    requires Invariant(r, w) && i < |r.server|
    ensures var s := r.server[i].scope;
            var cleaned := CleanedScope(s, w.cfg.ttl, ServerStale(generation), w.clock, r.now);
            Invariant(r.(server := WithScope(r.server, i, cleaned), now := r.now + CleanupReads(|s.loaded|, w.cfg.ttl)),
                      w)
  {
    hide Cleaned, DistinctRows;
    var s := r.server[i].scope;
    var later := r.now + CleanupReads(|s.loaded|, w.cfg.ttl);
    LaterIsFine(r.server, MaxScopes(w.cfg), w.clock, r.now, later);
    LaterIsFine(r.client, MaxScopes(w.cfg), w.clock, r.now, later);
    WithScopeKeeps(r.server, i, CleanedScope(s, w.cfg.ttl, ServerStale(generation), w.clock, r.now), MaxScopes(w.cfg),
                   w.clock, later);
  }

  lemma SnapshotKeeps(r: Registry, w: World, generation: int, key: Option<ServerKey>, clientKey: Option<ClientKey>)
    requires Invariant(r, w) && NonDecreasing(w.clock)
    ensures Invariant(SnapshotTaken(r, w.cfg, generation, w.runtimeId, key, clientKey, w.clock).0, w)
  {
    hide Cleaned, ServerEntries, ClientEntries, GotLoadedClient, Invariant;
    var i := FullRow(r.server, key);
    if i < 0 {
      ClientReadKeeps(r, w, clientKey);
    } else {
      var s := r.server[i].scope;
      var cleaned := CleanedScope(s, w.cfg.ttl, ServerStale(generation), w.clock, r.now);
      CleanedInPlaceKeeps(r, w, generation, i);
      ClientReadKeeps(r.(server := WithScope(r.server, i, cleaned), now := r.now + CleanupReads(|s.loaded|, w.cfg.ttl)),
                      w, clientKey);
    }
  }

  lemma {:induction false} WithoutKeeps<K, B>(rows: seq<Row<K, B>>, drop: K -> bool, clock: Readings, now: nat)
    requires ActiveBefore(rows, clock, now)
    ensures IsPart(Without(rows, drop), rows) && ActiveBefore(Without(rows, drop), clock, now)
  {
    hide IsPart;
    if rows == [] {
      SelfPart(rows);
    } else {
      var init, last := rows[..|rows| - 1], rows[|rows| - 1];
      WithoutKeeps(init, drop, clock, now);
      assert rows == init + [last];
      PartOneMore(Without(init, drop), init, last, last);
      assert Without(init, drop) + [] == Without(init, drop);
    }
  }

  lemma ClearKeeps(r: Registry, w: World, conversation: Option<string>, agent: Option<string>)
    requires Invariant(r, w)
    ensures Invariant(Cleared(r, conversation, agent).0, w)
  {
    hide Without;
    if Given(conversation) {
      WithoutKeeps(r.server, ServerKeysOf(conversation.value, agent), w.clock, r.now);
      WithoutKeeps(r.client, ClientKeysOf(conversation.value, agent), w.clock, r.now);
    }
  }

  lemma StepKeeps(r: Registry, e: Event, w: World)
    requires Invariant(r, w) && NonDecreasing(w.clock)
    ensures Invariant(Next(r, e, w), w)
  {
    hide Invariant, Autoloaded, AutoloadedClient, GotLoaded, GotLoadedClient, Used, SnapshotTaken;
    hide RestorableServer, RestorableClient, AutoloadKey, ReadKey, KeyFor;
    match e.call
    case Autoload(c, a, refs) => AutoloadKeeps(r, w, e.generation, KeyFor(c, a), refs);
    case AutoloadClient(c, a, d, s, active, version, refs) =>
      ClientAutoloadKeeps(r, w, e.generation, version, AutoloadKey(c, a, d, s, refs, active), refs);
    case Read(c, a) => ServerReadKeeps(r, w, e.generation, KeyFor(c, a));
    case ReadClient(c, a, d, s, active) => ClientReadKeeps(r, w, ReadKey(c, a, d, s, active));
    case Use(c, a, toolName) => UseKeeps(r, w, KeyFor(c, a), toolName);
    case TakeSnapshot(c, a, d, s, active) =>
      SnapshotKeeps(r, w, e.generation, KeyFor(c, a), ReadKey(c, a, d, s, active));
    case RestoreServer(c, a, snapshot) =>
      AutoloadKeeps(r, w, e.generation, KeyFor(c, a),
                    RestorableServer(snapshot.serverTools, snapshot.runtimeId == w.runtimeId, e.generation));
    case RestoreClient(c, a, d, s, active, version, snapshot) =>
      if Given(d) {
        var effective := if Given(s) then s else active;
        var known := if snapshot.runtimeId == w.runtimeId then version else 0;
        var refs := RestorableClient(snapshot.clientTools, d.value, effective, known);
        ClientAutoloadKeeps(r, w, e.generation, version, AutoloadKey(c, a, d, effective, refs, active), refs);
      }
    case Clear(c, a) => ClearKeeps(r, w, c, a);
    case ClearAll => EmptyIsOk(w, w.clock(r.now), r.now + 1);
  }

  lemma AutoloadKeeps(r: Registry, w: World, generation: int, key: Option<ServerKey>, refs: seq<ToolReference>)
    requires Invariant(r, w) && NonDecreasing(w.clock)
    ensures Invariant(Autoloaded(r, w.cfg, generation, key, refs, w.cfg.maxTools, w.clock).0, w)
  {
    hide Invariant;
    if key.Some? {
      hide Autoloaded;
      AutoloadFillsTheTable(r, w, generation, key.value, refs, w.cfg.maxTools);
    }
  }

  lemma ClientAutoloadKeeps(r: Registry, w: World, generation: int, version: int, key: Option<ClientKey>,
                            refs: seq<ClientReference>)
    requires Invariant(r, w) && NonDecreasing(w.clock)
    ensures Invariant(AutoloadedClient(r, w.cfg, generation, version, key, refs, w.cfg.maxTools, w.clock).0, w)
  {
    hide Invariant;
    if key.Some? {
      hide AutoloadedClient;
      ClientAutoloadFillsTheTable(r, w, generation, version, key.value, refs, w.cfg.maxTools);
    }
  }

  lemma EmptyIsOk(w: World, lastSweep: real, now: nat)
    requires now >= 1
    ensures Invariant(Registry([], [], lastSweep, now), w)
  {
  }

  /** Over every run, each table stays within the cap (at least one pool). */
  lemma {:induction false} TablesStayBounded(events: seq<Event>, w: World)
    requires NonDecreasing(w.clock)
    ensures Invariant(Run(events, w), w)
    ensures |Run(events, w).server| <= MaxScopes(w.cfg) && |Run(events, w).client| <= MaxScopes(w.cfg)
  {
    hide Next;
    if events == [] {
      EmptyIsOk(w, w.clock(0), 1);
    } else {
      TablesStayBounded(events[..|events| - 1], w);
      StepKeeps(Run(events[..|events| - 1], w), events[|events| - 1], w);
    }
  }

  // ---------------------------------------------------------------- clearing a conversation

  lemma {:induction false} WithoutIsExact<K, B>(rows: seq<Row<K, B>>, drop: K -> bool, row: Row<K, B>)
    ensures row in Without(rows, drop) <==> row in rows && !drop(row.key)
  {
    if rows != [] {
      WithoutIsExact(rows[..|rows| - 1], drop, row);
    }
  }

  lemma {:induction false} WithoutNothing<K, B>(rows: seq<Row<K, B>>, drop: K -> bool)
    ensures |Without(rows, drop)| == |rows| ==> Without(rows, drop) == rows
  {
    if rows != [] {
      WithoutNothing(rows[..|rows| - 1], drop);
    }
  }

  /** Clearing a conversation, or one of its agents, drops every pool of it in both tables and
      leaves every other pool as it was; without a conversation it does nothing. */
  lemma ClearIsExact(r: Registry, conversation: Option<string>, agent: Option<string>)
    ensures var after := Cleared(r, conversation, agent).0;
      && (forall row :: row in after.server
            <==> row in r.server && !(Given(conversation) && ServerKeysOf(conversation.value, agent)(row.key)))
      && (forall row :: row in after.client
            <==> row in r.client && !(Given(conversation) && ClientKeysOf(conversation.value, agent)(row.key)))
      && (Cleared(r, conversation, agent).1 == 0 <==> after == r)
      && after.now == r.now && after.lastSweep == r.lastSweep
  {
    hide ServerKeysOf, ClientKeysOf;
    if Given(conversation) {
      var server, client := ServerKeysOf(conversation.value, agent), ClientKeysOf(conversation.value, agent);
      WithoutNothing(r.server, server);
      WithoutNothing(r.client, client);
      forall row {
        WithoutIsExact(r.server, server, row);
      }
      forall row {
        WithoutIsExact(r.client, client, row);
      }
    }
  }
}
