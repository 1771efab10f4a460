/** Every call of the registry is one step on each of its two tables, and what a step leaves under
    a key is known exactly. */
module ToolSteps {
  import opened Options
  import opened ToolScope
  import opened ToolRegistry
  import opened ToolRegistryRuns
  import opened ToolTables

  datatype TableOp<!K, !B> =
    | Keep
    | Fill(at: K, items: seq<Item<B>>, rules: Rules<B>)     // load under a key
    | Beside(isNew: bool)                                   // a load into the other table
    | Look(whose: Option<K>, ttl: int, stale: B -> bool)    // clean, touch and list
    | Tidy(whose: Option<K>, ttl: int, stale: B -> bool)    // clean only
    | Touch(whose: Option<K>, toolName: string)             // use one tool
    | Drop(drop: K -> bool)

  /** A sweep from some clock reading on, if one is due, and then the operation. */
  datatype TableStep<!K, !B> = TableStep(sweep: Option<nat>, stale: B -> bool, op: TableOp<K, B>, now: nat)

  function SweptBy<K, B>(rows: seq<Row<K, B>>, step: TableStep<K, B>, cfg: Settings, clock: Readings): seq<Row<K, B>> {
    if step.sweep.None? then rows else SweptRows(rows, cfg.ttl, step.stale, clock, step.sweep.value).rows
  }

  function Tidied<K(==), B>(rows: seq<Row<K, B>>, key: Option<K>, ttl: int, stale: B -> bool, clock: Readings, now: nat)
    : seq<Row<K, B>>
  {
    var i := FullRow(rows, key);
    if i < 0 then rows else WithScope(rows, i, CleanedScope(rows[i].scope, ttl, stale, clock, now))
  }

  function Touched<K(==), B>(rows: seq<Row<K, B>>, key: Option<K>, toolName: string, clock: Readings, now: nat)
    : seq<Row<K, B>>
  {
    var i := FullRow(rows, key);
    if i < 0 then rows else WithScope(rows, i, Got(rows[i].scope, toolName, clock, now).scope)
  }

  function After<K(==), B>(rows: seq<Row<K, B>>, step: TableStep<K, B>, cfg: Settings,
                           clock: Readings): seq<Row<K, B>> {
    var swept := SweptBy(rows, step, cfg, clock);
    match step.op
    case Keep => swept
    case Fill(at, items, rules) => Filled(swept, at, items, rules, clock, step.now)
    case Beside(isNew) => CappedBeside(swept, isNew, cfg)
    case Look(whose, ttl, stale) => ReadRow(swept, whose, ttl, stale, clock, step.now).rows
    case Tidy(whose, ttl, stale) => Tidied(swept, whose, ttl, stale, clock, step.now)
    case Touch(whose, toolName) => Touched(swept, whose, toolName, clock, step.now)
    case Drop(drop) => Without(swept, drop)
  }

  // ---------------------------------------------------------------- the calls

  /** A load under a key: asked for directly, or by a restore. */
  datatype Order<K, R> = Order(key: K, refs: seq<R>, version: int)

  function ServerOrder(e: Event, w: World): Option<Order<ServerKey, ToolReference>> {
    match e.call
    case Autoload(c, a, refs) => OrderOf(KeyFor(c, a), refs, 0)
    case RestoreServer(c, a, snapshot) =>
      OrderOf(KeyFor(c, a), RestorableServer(snapshot.serverTools, snapshot.runtimeId == w.runtimeId, e.generation), 0)
    case _ => None
  }

  function ClientOrder(e: Event, w: World): Option<Order<ClientKey, ClientReference>> {
    match e.call
    case AutoloadClient(c, a, d, s, active, version, refs) =>
      OrderOf(AutoloadKey(c, a, d, s, refs, active), refs, version)
    case RestoreClient(c, a, d, s, active, version, snapshot) =>
      if !Given(d) then None
      else
        var effective := if Given(s) then s else active;
        var known := if snapshot.runtimeId == w.runtimeId then version else 0;
        var refs := RestorableClient(snapshot.clientTools, d.value, effective, known);
        if refs == [] then None else OrderOf(AutoloadKey(c, a, d, effective, refs, active), refs, version)
    case _ => None
  }

  function OrderOf<K, R>(key: Option<K>, refs: seq<R>, version: int): Option<Order<K, R>> {
    if key.None? then None else Some(Order(key.value, refs, version))
  }

  function ServerLoad(o: Order<ServerKey, ToolReference>, e: Event, w: World): TableOp<ServerKey, ServerBinding> {
    Fill(o.key, ServerItems(o.refs, e.generation), ServerRules(w.cfg, e.generation, w.cfg.maxTools))
  }

  function ClientLoad(o: Order<ClientKey, ClientReference>, w: World): TableOp<ClientKey, ClientBinding> {
    Fill(o.key, ClientItems(o.refs, o.key.device, o.version), ClientRules(w.cfg, o.version, w.cfg.maxTools))
  }

  predicate SweepIsDue(r: Registry, w: World) {
    w.clock(r.now) - r.lastSweep >= SWEEP_MIN_INTERVAL_SECONDS
  }

  function ServerSweep(r: Registry, w: World): Option<nat> {
    if SweepIsDue(r, w) then Some(r.now + 1) else None
  }

  function ClientSweep(r: Registry, e: Event, w: World): Option<nat> {
    if SweepIsDue(r, w) then Some(SweptRows(r.server, w.cfg.ttl, ServerStale(e.generation), w.clock, r.now + 1).now)
    else None
  }

  /** What a call does to the table of server tools. */
  function ServerStep(r: Registry, e: Event, w: World): TableStep<ServerKey, ServerBinding> {
    var swept, stale := Swept(r, w.cfg, e.generation, w.clock), ServerStale(e.generation);
    if ServerOrder(e, w).Some? then TableStep(ServerSweep(r, w), stale, ServerLoad(ServerOrder(e, w).value, e, w),
                                              swept.now)
    else if ClientOrder(e, w).Some? then
      TableStep(ServerSweep(r, w), stale, Beside(RowIndex(swept.client, ClientOrder(e, w).value.key) < 0), swept.now)
    else
      var op := match e.call
        case Read(c, a) => Look(KeyFor(c, a), w.cfg.ttl, stale)
        case Use(c, a, toolName) => Touch(KeyFor(c, a), toolName)
        case TakeSnapshot(c, a, d, s, active) => Tidy(KeyFor(c, a), w.cfg.ttl, stale)
        case Clear(c, a) => if Given(c) then Drop(ServerKeysOf(c.value, a)) else Keep
        case ClearAll => Drop(AllKeys())
        case _ => Keep;
      TableStep(None, stale, op, r.now)
  }

  /** What a call does to the table of device tools. */
  function ClientStep(r: Registry, e: Event, w: World): TableStep<ClientKey, ClientBinding> {
    var swept, stale := Swept(r, w.cfg, e.generation, w.clock), ClientStale(0);
    if ClientOrder(e, w).Some? then TableStep(ClientSweep(r, e, w), stale, ClientLoad(ClientOrder(e, w).value, w),
                                              swept.now)
    else if ServerOrder(e, w).Some? then
      TableStep(ClientSweep(r, e, w), stale, Beside(RowIndex(swept.server, ServerOrder(e, w).value.key) < 0), swept.now)
    else
      match e.call
      case ReadClient(c, a, d, s, active) =>
        TableStep(None, stale, Look(ReadKey(c, a, d, s, active), w.cfg.ttl, stale), r.now)
      case TakeSnapshot(c, a, d, s, active) =>
        TableStep(None, stale, Look(ReadKey(c, a, d, s, active), w.cfg.ttl, stale), AfterTidy(r, e, w, KeyFor(c, a)))
      case Clear(c, a) => TableStep(None, stale, if Given(c) then Drop(ClientKeysOf(c.value, a)) else Keep, r.now)
      case ClearAll => TableStep(None, stale, Drop(AllKeys()), r.now)
      case _ => TableStep(None, stale, Keep, r.now)
  }

  function AllKeys<K>(): K -> bool {
    _ => true
  }

  /** The clock after the server half of a snapshot. */
  function AfterTidy(r: Registry, e: Event, w: World, key: Option<ServerKey>): nat {
    TidyEnd(r.server, key, w.cfg.ttl, r.now)
  }

  lemma {:induction false} NothingWithoutAll<K, B>(rows: seq<Row<K, B>>)
    ensures Without(rows, AllKeys()) == []
  {
    if rows != [] {
      NothingWithoutAll(rows[..|rows| - 1]);
    }
  }

  lemma SweepIsStep(r: Registry, e: Event, w: World)
    ensures var swept := Swept(r, w.cfg, e.generation, w.clock);
      && swept.server
        == SweptBy(r.server, TableStep(ServerSweep(r, w), ServerStale(e.generation), Keep, 0), w.cfg, w.clock)
      && swept.client == SweptBy(r.client, TableStep(ClientSweep(r, e, w), ClientStale(0), Keep, 0), w.cfg, w.clock)
  {
    hide SweptRows;
  }

  lemma LoadsAreSteps(r: Registry, e: Event, w: World)
    requires ServerOrder(e, w).Some? || ClientOrder(e, w).Some?
    ensures Next(r, e, w).server == After(r.server, ServerStep(r, e, w), w.cfg, w.clock)
    ensures Next(r, e, w).client == After(r.client, ClientStep(r, e, w), w.cfg, w.clock)
  {
    hide Swept, SweepIsDue, Loading, Filled, CappedBeside, RestorableServer, RestorableClient, AutoloadKey;
    hide KeyFor, RowIndex;
    hide ServerItems, ClientItems, Taken, SweptRows;
    SweepIsStep(r, e, w);
  }

  lemma OtherServerSteps(r: Registry, e: Event, w: World)
    requires ServerOrder(e, w).None? && ClientOrder(e, w).None?
    ensures Next(r, e, w).server == After(r.server, ServerStep(r, e, w), w.cfg, w.clock)
  {
    hide Swept, Loading, Filled, CappedBeside, Cleaned, RestorableServer, RestorableClient, AutoloadKey;
    hide ReadKey, KeyFor;
    hide Without, ServerItems, ClientItems, ServerEntries, ClientEntries, Taken, Got, FullRow, RowIndex, SweptRows;
    hide ReadRow, SweepIsDue, ServerLoad, ClientLoad, ServerStale, ClientStale, CleanupReads;
    hide SnapshotTaken;
    NothingWithoutAll(r.server);
    if e.call.TakeSnapshot? {
      SnapshotIsServerStep(r, e, w);
    }
  }

  lemma SnapshotIsServerStep(r: Registry, e: Event, w: World)
    requires e.call.TakeSnapshot?
    ensures Next(r, e, w).server == After(r.server, ServerStep(r, e, w), w.cfg, w.clock)
  {
    hide Cleaned, ReadKey, KeyFor, ServerEntries, ClientEntries, FullRow, ReadRow, SweepIsDue, Swept;
    hide ServerStale, ClientStale;
    hide CleanupReads;
  }

  lemma OtherClientSteps(r: Registry, e: Event, w: World)
    requires ServerOrder(e, w).None? && ClientOrder(e, w).None?
    ensures Next(r, e, w).client == After(r.client, ClientStep(r, e, w), w.cfg, w.clock)
  {
    hide Swept, Loading, Filled, CappedBeside, Cleaned, RestorableServer, RestorableClient, AutoloadKey;
    hide ReadKey, KeyFor;
    hide Without, ServerItems, ClientItems, ServerEntries, ClientEntries, Taken, Got, FullRow, RowIndex, SweptRows;
    hide ReadRow, SweepIsDue, ServerLoad, ClientLoad, ServerStale, ClientStale, CleanupReads;
    NothingWithoutAll(r.client);
  }

  /** Every call is a step on each table. */
  lemma CallsAreSteps(r: Registry, e: Event, w: World)
    ensures Next(r, e, w).server == After(r.server, ServerStep(r, e, w), w.cfg, w.clock)
    ensures Next(r, e, w).client == After(r.client, ClientStep(r, e, w), w.cfg, w.clock)
  {
    hide Next, After, ServerStep, ClientStep, ServerOrder, ClientOrder;
    if ServerOrder(e, w).Some? || ClientOrder(e, w).Some? {
      LoadsAreSteps(r, e, w);
    } else {
      OtherServerSteps(r, e, w);
      OtherClientSteps(r, e, w);
    }
  }

  // ---------------------------------------------------------------- the pool of a key after a step

  /** The end of the clock readings a step takes. */
  function EndOf<K(==), B>(rows: seq<Row<K, B>>, step: TableStep<K, B>, cfg: Settings, clock: Readings): nat {
    var swept := SweptBy(rows, step, cfg, clock);
    match step.op
    case Fill(at, items, rules) => Loading(swept, at, items, rules, clock, step.now).now
    case Look(whose, ttl, stale) => ReadRow(swept, whose, ttl, stale, clock, step.now).now
    case Tidy(whose, ttl, _) => TidyEnd(swept, whose, ttl, step.now)
    case _ => step.now
  }

  function TidyEnd<K(==), B>(rows: seq<Row<K, B>>, whose: Option<K>, ttl: int, now: nat): nat {
    var i := FullRow(rows, whose);
    if i < 0 then now else now + CleanupReads(|rows[i].scope.loaded|, ttl)
  }

  ghost predicate StepOk<K, B>(rows: seq<Row<K, B>>, step: TableStep<K, B>, cfg: Settings, clock: Readings) {
    && DistinctRows(rows) && NonDecreasing(clock)
    && TableOk(SweptBy(rows, step, cfg, clock), MaxScopes(cfg), clock, step.now)
    && (step.sweep.Some? ==> SweptRows(rows, cfg.ttl, step.stale, clock, step.sweep.value).now <= step.now)
    && (step.op.Fill? ==> step.op.rules.maxScopes == MaxScopes(cfg))
  }

  lemma SweptByPool<K, B>(rows: seq<Row<K, B>>, step: TableStep<K, B>, cfg: Settings, clock: Readings, key: K)
      returns (at: nat)
    requires StepOk(rows, step, cfg, clock)
    ensures PoolOf(SweptBy(rows, step, cfg, clock), key)
         == if step.sweep.None? then PoolOf(rows, key) else Cleaned(PoolOf(rows, key), cfg.ttl, step.stale, clock, at)
    ensures step.sweep.Some? ==> step.sweep.value <= at && at + CleanupReads(|PoolOf(rows, key)|, cfg.ttl) <= step.now
  {
    hide PoolOf, SweptRows, Cleaned, TableOk, DistinctRows;
    at := step.now;
    if step.sweep.Some? {
      at := SweptPool(rows, cfg.ttl, step.stale, clock, step.sweep.value, key);
    }
  }

  lemma FullRowIs<K, B>(rows: seq<Row<K, B>>, key: Option<K>)
    ensures var i := FullRow(rows, key);
      && (i >= 0 ==> i == RowIndex(rows, key.value) && PoolOf(rows, key.value) == rows[i].scope.loaded)
      && (i < 0 && key.Some? ==> PoolOf(rows, key.value) == [])
  {
  }

  lemma ReadPool<K, B>(rows: seq<Row<K, B>>, whose: Option<K>, ttl: int, stale: B -> bool, clock: Readings, now: nat,
                       key: K)
    ensures PoolOf(ReadRow(rows, whose, ttl, stale, clock, now).rows, key)
         == if whose == Some(key) then Cleaned(PoolOf(rows, key), ttl, stale, clock, now) else PoolOf(rows, key)
    ensures PoolOf(Tidied(rows, whose, ttl, stale, clock, now), key)
         == if whose == Some(key) then Cleaned(PoolOf(rows, key), ttl, stale, clock, now) else PoolOf(rows, key)
    ensures whose == Some(key) ==>
      now + CleanupReads(|PoolOf(rows, key)|, ttl) == TidyEnd(rows, whose, ttl, now)
        <= ReadRow(rows, whose, ttl, stale, clock, now).now
  {
    hide PoolOf, Cleaned, RowIndex, FullRow;
    FullRowIs(rows, whose);
    var i := FullRow(rows, whose);
    if i >= 0 {
      var cleaned := CleanedScope(rows[i].scope, ttl, stale, clock, now);
      var later := now + CleanupReads(|rows[i].scope.loaded|, ttl);
      PutElsewhere(rows, i, cleaned, key);
      PutElsewhere(rows, i, cleaned.(lastActive := clock(later)), key);
    } else {
      CleanedNothing<B>(ttl, stale, clock, now);
    }
  }

  lemma TouchedPool<K, B>(rows: seq<Row<K, B>>, whose: Option<K>, toolName: string, clock: Readings, now: nat, key: K)
    ensures PoolOf(Touched(rows, whose, toolName, clock, now), key)
         == if whose == Some(key) then Got(Scope(0.0, 0.0, PoolOf(rows, key)), toolName, clock, now).scope.loaded
            else PoolOf(rows, key)
  {
    hide PoolOf, RowIndex;
    FullRowIs(rows, whose);
    var i := FullRow(rows, whose);
    if i >= 0 {
      PutElsewhere(rows, i, Got(rows[i].scope, toolName, clock, now).scope, key);
    }
  }

  lemma BesideIsSame<K, B>(rows: seq<Row<K, B>>, isNew: bool, cfg: Settings)
    requires |rows| <= MaxScopes(cfg)
    ensures CappedBeside(rows, isNew, cfg) == rows
  {
  }

  // ---------------------------------------------------------------- the steps are in order

  lemma SweepTimes(r: Registry, e: Event, w: World)
    requires Invariant(r, w)
    ensures var swept := Swept(r, w.cfg, e.generation, w.clock);
      && swept.server
        == (if SweepIsDue(r, w) then SweptRows(r.server, w.cfg.ttl, ServerStale(e.generation), w.clock, r.now + 1).rows
                          else r.server)
      && (SweepIsDue(r, w) ==>
            var server := SweptRows(r.server, w.cfg.ttl, ServerStale(e.generation), w.clock, r.now + 1);
            var client := SweptRows(r.client, w.cfg.ttl, ClientStale(0), w.clock, server.now);
            r.now < server.now <= client.now == swept.now && swept.client == client.rows)
      && (!SweepIsDue(r, w) ==> swept.client == r.client)
      && r.now < swept.now
  {
    hide SweptRows, TableOk;
    var server := SweptRows(r.server, w.cfg.ttl, ServerStale(e.generation), w.clock, r.now + 1);
    SweepKeepsTable(r.server, w.cfg.ttl, ServerStale(e.generation), MaxScopes(w.cfg), w.clock, r.now, r.now + 1);
    SweepKeepsTable(r.client, w.cfg.ttl, ClientStale(0), MaxScopes(w.cfg), w.clock, r.now, server.now);
  }

  lemma LoadTakesTime<K, B>(rows: seq<Row<K, B>>, key: K, items: seq<Item<B>>, rules: Rules<B>, clock: Readings,
                            now: nat)
    requires TableOk(rows, rules.maxScopes, clock, now) && NonDecreasing(clock) && rules.maxScopes >= 1
    ensures Loading(rows, key, items, rules, clock, now).now >= now
  {
    hide Loading, Filled, TableOk, Open;
    FilledIsThere(rows, key, items, rules, clock, now);
    OpenTakesTime(rows, key, rules.maxScopes, clock, now);
  }

  lemma OpenTakesTime<K, B>(rows: seq<Row<K, B>>, key: K, maxScopes: nat, clock: Readings, now: nat)
    ensures Open(rows, key, maxScopes, clock, now).now >= now
  {
    hide CappedRows;
  }

  lemma ReadTakesTime<K, B>(rows: seq<Row<K, B>>, whose: Option<K>, ttl: int, stale: B -> bool, clock: Readings,
                            now: nat)
    ensures ReadRow(rows, whose, ttl, stale, clock, now).now >= now
  {
    hide Cleaned;
  }

  /** Calls that load nothing take no time either before the first reading. */
  lemma OtherCallsTakeTime(r: Registry, e: Event, w: World)
    requires ServerOrder(e, w).None? && ClientOrder(e, w).None?
    ensures r.now <= Next(r, e, w).now
    ensures e.call.TakeSnapshot? ==> AfterTidy(r, e, w, KeyFor(e.call.conversation, e.call.agent)) <= Next(r, e, w).now
  {
    hide SweptRows, Loading, Filled, CappedBeside, Cleaned, RestorableServer, RestorableClient, AutoloadKey;
    hide ReadKey, KeyFor, Without;
    hide ServerEntries, ClientEntries, Taken, ReadRow;
    match e.call
    case Read(c, a) => ReadTakesTime(r.server, KeyFor(c, a), w.cfg.ttl, ServerStale(e.generation), w.clock, r.now);
    case ReadClient(c, a, d, s, active) =>
      ReadTakesTime(r.client, ReadKey(c, a, d, s, active), w.cfg.ttl, ClientStale(0), w.clock, r.now);
    case TakeSnapshot(c, a, d, s, active) =>
      ReadTakesTime(r.client, ReadKey(c, a, d, s, active), w.cfg.ttl, ClientStale(0), w.clock,
                    AfterTidy(r, e, w, KeyFor(c, a)));
    case _ =>
  }

  lemma ServerStepOk(r: Registry, e: Event, w: World)
    requires Invariant(r, w) && NonDecreasing(w.clock)
    ensures var step := ServerStep(r, e, w);
      && StepOk(r.server, step, w.cfg, w.clock)
      && r.now <= step.now && (step.sweep.Some? ==> r.now <= step.sweep.value)
      && EndOf(r.server, step, w.cfg, w.clock) <= Next(r, e, w).now
  {
    hide SweptRows, Loading, Filled, CappedBeside, Cleaned, RestorableServer, RestorableClient, AutoloadKey;
    hide ReadKey, KeyFor, Without;
    hide ServerItems, ClientItems, ServerEntries, ClientEntries, Taken, Got, TableOk, DistinctRows;
    SweptKeeps(r, w, e.generation);
    SweepTimes(r, e, w);
    TableIsDistinct(r.server, MaxScopes(w.cfg), w.clock, r.now);
    var swept, o, c := Swept(r, w.cfg, e.generation, w.clock), ServerOrder(e, w), ClientOrder(e, w);
    if o.None? && c.None? {
      OtherCallsTakeTime(r, e, w);
    }
    if o.None? && c.Some? {
      var load := ClientLoad(c.value, w);
      LoadTakesTime(swept.client, load.at, load.items, load.rules, w.clock, swept.now);
    }
  }

  lemma TableIsDistinct<K, B>(rows: seq<Row<K, B>>, maxScopes: nat, clock: Readings, now: nat)
    requires TableOk(rows, maxScopes, clock, now)
    ensures DistinctRows(rows)
  {
  }

  lemma ClientStepOk(r: Registry, e: Event, w: World)
    requires Invariant(r, w) && NonDecreasing(w.clock)
    ensures var step := ClientStep(r, e, w);
      && StepOk(r.client, step, w.cfg, w.clock)
      && r.now <= step.now && (step.sweep.Some? ==> r.now <= step.sweep.value)
      && EndOf(r.client, step, w.cfg, w.clock) <= Next(r, e, w).now
  {
    hide SweptRows, Loading, Filled, CappedBeside, Cleaned, RestorableServer, RestorableClient, AutoloadKey;
    hide ReadKey, KeyFor, Without;
    hide ServerItems, ClientItems, ServerEntries, ClientEntries, Taken, Got, TableOk, DistinctRows;
    SweptKeeps(r, w, e.generation);
    SweepTimes(r, e, w);
    TableIsDistinct(r.client, MaxScopes(w.cfg), w.clock, r.now);
    var swept, o, c := Swept(r, w.cfg, e.generation, w.clock), ServerOrder(e, w), ClientOrder(e, w);
    if o.None? && c.None? {
      OtherCallsTakeTime(r, e, w);
    }
    if o.Some? && c.None? {
      var load := ServerLoad(o.value, e, w);
      LoadTakesTime(swept.server, load.at, load.items, load.rules, w.clock, swept.now);
    }
    if e.call.TakeSnapshot? {
      var later := AfterTidy(r, e, w, KeyFor(e.call.conversation, e.call.agent));
      LaterIsFine(r.client, MaxScopes(w.cfg), w.clock, r.now, later);
    }
  }
}
