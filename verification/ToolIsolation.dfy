/** A tool is visible under one key only: the conversation and agent, and for a device tool the
    device and session too, that it was loaded under. */
module ToolIsolation {
  import opened Options
  import opened ToolScope
  import opened ToolRegistry
  import opened ToolRegistryRuns
  import opened ToolTables
  import opened ToolSteps

  predicate ScopeHas<B(==)>(loaded: seq<Entry<B>>, item: Item<B>) {
    exists j :: 0 <= j < |loaded| && loaded[j].key == item.key && loaded[j].binding == item.binding
  }

  /** Some pool under that key holds the tool with that binding. */
  predicate RowsHave<K(==), B(==)>(rows: seq<Row<K, B>>, key: K, item: Item<B>) {
    exists i :: 0 <= i < |rows| && rows[i].key == key && ScopeHas(rows[i].scope.loaded, item)
  }

  predicate ItemIn<B(==)>(items: seq<Item<B>>, item: Item<B>) {
    exists i :: 0 <= i < |items| && items[i] == item
  }

  // ---------------------------------------------------------------- within a pool

  lemma ScopeHasAppend<B>(a: seq<Entry<B>>, b: seq<Entry<B>>, item: Item<B>)
    ensures ScopeHas(a + b, item) <==> ScopeHas(a, item) || ScopeHas(b, item)
  {
    if j :| 0 <= j < |a| && a[j].key == item.key && a[j].binding == item.binding {
      assert (a + b)[j] == a[j];
    }
    if j :| 0 <= j < |b| && b[j].key == item.key && b[j].binding == item.binding {
      assert (a + b)[|a| + j] == b[j];
    }
  }

  /** A cleanup invents nothing. */
  lemma {:induction false} CleanedHas<B>(loaded: seq<Entry<B>>, ttl: int, stale: B -> bool, clock: Readings, now: nat,
                                         item: Item<B>)
    ensures ScopeHas(Cleaned(loaded, ttl, stale, clock, now), item) ==> ScopeHas(loaded, item)
  {
    hide ScopeHas, Stays;
    if loaded == [] {
      assert Cleaned(loaded, ttl, stale, clock, now) == loaded;
    } else {
      var before, last := loaded[..|loaded| - 1], loaded[|loaded| - 1];
      CleanedHas(before, ttl, stale, clock, now, item);
      assert loaded == before + [last];
      ScopeHasAppend(before, [last], item);
      ScopeHasAppend(Cleaned(before, ttl, stale, clock, now), [last], item);
      assert Cleaned(before, ttl, stale, clock, now) + [] == Cleaned(before, ttl, stale, clock, now);
    }
  }

  lemma {:induction false} MakeRoomHas<B>(loaded: seq<Entry<B>>, max: int, item: Item<B>)
    ensures ScopeHas(MakeRoom(loaded, max), item) ==> ScopeHas(loaded, item)
    decreases |loaded|
  {
    hide ScopeHas;
    if |loaded| >= max && loaded != [] {
      var lru := LruIndex(loaded);
      MakeRoomHas(RemoveAt(loaded, lru), max, item);
      assert loaded == loaded[..lru] + [loaded[lru]] + loaded[lru + 1..];
      ScopeHasAppend(loaded[..lru], loaded[lru + 1..], item);
      ScopeHasAppend(loaded[..lru] + [loaded[lru]], loaded[lru + 1..], item);
      ScopeHasAppend(loaded[..lru], [loaded[lru]], item);
    }
  }

  lemma ReplacedHas<B>(loaded: seq<Entry<B>>, i: nat, e: Entry<B>, item: Item<B>)
    requires i < |loaded|
    ensures ScopeHas(loaded[i := e], item) ==> ScopeHas(loaded, item) || item == Item(e.key, e.binding)
  {
    var after := loaded[i := e];
    if j :| 0 <= j < |after| && after[j].key == item.key && after[j].binding == item.binding {
      assert j != i ==> after[j] == loaded[j];
    }
  }

  lemma AddedHas<B>(s: Scope<B>, key: string, binding: B, max: int, clock: Readings, now: nat, item: Item<B>)
    ensures ScopeHas(Added(s, key, binding, max, clock, now).scope.loaded, item)
        ==> ScopeHas(s.loaded, item) || item == Item(key, binding)
  {
    hide ScopeHas, MakeRoom;
    var i := IndexOf(s.loaded, key);
    if i >= 0 {
      ReplacedHas(s.loaded, i, s.loaded[i].(binding := binding, lastUsed := clock(now + 1)), item);
    } else {
      MakeRoomHas(s.loaded, max, item);
      var entry := Entry(key, binding, clock(now + 1), clock(now + 2));
      ScopeHasAppend(MakeRoom(s.loaded, max), [entry], item);
      OneHas(entry, item);
    }
  }

  lemma OneHas<B>(e: Entry<B>, item: Item<B>)
    ensures ScopeHas([e], item) <==> item == Item(e.key, e.binding)
  {
    assert [e][0] == e;
  }

  lemma {:induction false} AddedAllHas<B>(s: Scope<B>, items: seq<Item<B>>, max: int, clock: Readings, now: nat,
                                          item: Item<B>)
    ensures ScopeHas(AddedAll(s, items, max, clock, now).scope.loaded, item)
         ==> ScopeHas(s.loaded, item) || ItemIn(items, item)
  {
    hide ScopeHas, Added;
    if items != [] {
      var init, last := items[..|items| - 1], items[|items| - 1];
      AddedAllHas(s, init, max, clock, now, item);
      var before := AddedAll(s, init, max, clock, now);
      AddedHas(before.scope, last.key, last.binding, max, clock, before.now, item);
      if ItemIn(init, item) {
        var i :| 0 <= i < |init| && init[i] == item;
        assert items[i] == item;
      }
      assert items[|items| - 1] == last;
    }
  }

  lemma GotHas<B>(s: Scope<B>, toolName: string, clock: Readings, now: nat, item: Item<B>)
    ensures ScopeHas(Got(s, toolName, clock, now).scope.loaded, item) <==> ScopeHas(s.loaded, item)
  {
    var after := Got(s, toolName, clock, now).scope.loaded;
    assert |after| == |s.loaded|;
    assert forall j :: 0 <= j < |after| ==> after[j].key == s.loaded[j].key && after[j].binding == s.loaded[j].binding;
  }

  // ---------------------------------------------------------------- within a table

  lemma RowsHaveAppend<K, B>(a: seq<Row<K, B>>, b: seq<Row<K, B>>, key: K, item: Item<B>)
    ensures RowsHave(a + b, key, item) <==> RowsHave(a, key, item) || RowsHave(b, key, item)
  {
    hide ScopeHas;
    if i :| 0 <= i < |a| && a[i].key == key && ScopeHas(a[i].scope.loaded, item) {
      assert (a + b)[i] == a[i];
    }
    if i :| 0 <= i < |b| && b[i].key == key && ScopeHas(b[i].scope.loaded, item) {
      assert (a + b)[|a| + i] == b[i];
    }
  }

  lemma OneRowHas<K, B>(row: Row<K, B>, key: K, item: Item<B>)
    ensures RowsHave([row], key, item) <==> row.key == key && ScopeHas(row.scope.loaded, item)
  {
    assert [row][0] == row;
  }

  lemma {:induction false} SweptHas<K, B>(rows: seq<Row<K, B>>, ttl: int, stale: B -> bool, clock: Readings, now: nat,
                                          key: K, item: Item<B>)
    ensures RowsHave(SweptRows(rows, ttl, stale, clock, now).rows, key, item) ==> RowsHave(rows, key, item)
  {
    hide RowsHave, ScopeHas, Cleaned, IsAbandoned;
    if rows == [] {
      assert SweptRows(rows, ttl, stale, clock, now).rows == rows;
    } else {
      var init, last := rows[..|rows| - 1], rows[|rows| - 1];
      SweptHas(init, ttl, stale, clock, now, key, item);
      var before := SweptRows(init, ttl, stale, clock, now);
      var cleaned := CleanedScope(last.scope, ttl, stale, clock, before.now);
      CleanedHas(last.scope.loaded, ttl, stale, clock, before.now, item);
      assert rows == init + [last];
      RowsHaveAppend(init, [last], key, item);
      RowsHaveAppend(before.rows, [Row(last.key, cleaned)], key, item);
      OneRowHas(last, key, item);
      OneRowHas(Row(last.key, cleaned), key, item);
      assert before.rows + [] == before.rows;
    }
  }

  lemma {:induction false} CappedHas<K, B>(rows: seq<Row<K, B>>, max: nat, key: K, item: Item<B>)
    ensures RowsHave(CappedRows(rows, max), key, item) ==> RowsHave(rows, key, item)
    decreases |rows|
  {
    hide RowsHave;
    if |rows| > max {
      var quiet := QuietIndex(rows);
      CappedHas(RemoveAt(rows, quiet), max, key, item);
      assert rows == rows[..quiet] + [rows[quiet]] + rows[quiet + 1..];
      RowsHaveAppend(rows[..quiet], rows[quiet + 1..], key, item);
      RowsHaveAppend(rows[..quiet] + [rows[quiet]], rows[quiet + 1..], key, item);
      RowsHaveAppend(rows[..quiet], [rows[quiet]], key, item);
    }
  }

  lemma WithScopeHas<K, B>(rows: seq<Row<K, B>>, i: int, scope: Scope<B>, key: K, item: Item<B>)
    requires i < |rows|
    ensures RowsHave(WithScope(rows, i, scope), key, item)
        ==> RowsHave(rows, key, item) || (i >= 0 && rows[i].key == key && ScopeHas(scope.loaded, item))
  {
    hide ScopeHas;
    var after := WithScope(rows, i, scope);
    if RowsHave(after, key, item) {
      var j :| 0 <= j < |after| && after[j].key == key && ScopeHas(after[j].scope.loaded, item);
      assert j != i ==> after[j] == rows[j];
    }
  }

  lemma {:induction false} WithoutHas<K, B>(rows: seq<Row<K, B>>, drop: K -> bool, key: K, item: Item<B>)
    ensures RowsHave(Without(rows, drop), key, item) <==> RowsHave(rows, key, item) && !drop(key)
  {
    hide RowsHave, ScopeHas;
    if rows == [] {
      NoRowsHave(rows, key, item);
    } else {
      var init, last := rows[..|rows| - 1], rows[|rows| - 1];
      WithoutHas(init, drop, key, item);
      assert rows == init + [last];
      RowsHaveAppend(init, [last], key, item);
      OneRowHas(last, key, item);
      var rest := Without(init, drop);
      RowsHaveAppend(rest, [last], key, item);
      assert rest + [] == rest;
    }
  }

  lemma NoRowsHave<K, B>(rows: seq<Row<K, B>>, key: K, item: Item<B>)
    requires rows == []
    ensures !RowsHave(rows, key, item)
  {
  }

  lemma FilledHas<K, B>(rows: seq<Row<K, B>>, at: K, items: seq<Item<B>>, rules: Rules<B>, clock: Readings, now: nat,
                        key: K, item: Item<B>)
    ensures RowsHave(Filled(rows, at, items, rules, clock, now), key, item)
        ==> RowsHave(rows, key, item) || (at == key && ItemIn(items, item))
  {
    hide RowsHave, ScopeHas, Open, Cleaned, AddedAll, ItemIn;
    OpenedHas(rows, at, rules.maxScopes, clock, now, key, item);
    var o := Open(rows, at, rules.maxScopes, clock, now);
    CleanedHas(o.scope.loaded, rules.ttl, rules.stale, clock, o.now, item);
    var (scope, start) := AtLoad(rows, at, rules, clock, now);
    AddedAllHas(scope, items, rules.maxTools, clock, start, item);
    WithScopeHas(o.rows, o.index, Loading(rows, at, items, rules, clock, now).scope, key, item);
  }

  lemma OpenedHas<K, B>(rows: seq<Row<K, B>>, at: K, maxScopes: nat, clock: Readings, now: nat, key: K, item: Item<B>)
    ensures var o := Open(rows, at, maxScopes, clock, now);
      && (RowsHave(o.rows, key, item) ==> RowsHave(rows, key, item))
      && (ScopeHas(o.scope.loaded, item) ==> RowsHave(rows, at, item))
      && (o.index >= 0 ==> o.rows[o.index].key == at)
  {
    hide ScopeHas, CappedRows;
    if RowIndex(rows, at) < 0 {
      var row := Row(at, NewScope<B>(clock, now));
      NewHasNothing(row.scope, item);
      CappedHas(rows + [row], maxScopes, key, item);
      RowsHaveAppend(rows, [row], key, item);
      OneRowHas(row, key, item);
    }
  }

  lemma ReadHas<K, B>(rows: seq<Row<K, B>>, at: Option<K>, ttl: int, stale: B -> bool, clock: Readings, now: nat,
                      key: K, item: Item<B>)
    ensures var read := ReadRow(rows, at, ttl, stale, clock, now);
      && (RowsHave(read.rows, key, item) ==> RowsHave(rows, key, item))
      && (ScopeHas(read.loaded, item) ==> at.Some? && RowsHave(rows, at.value, item))
  {
    hide ScopeHas, Cleaned;
    var i := FullRow(rows, at);
    if i < 0 {
      NewHasNothing(NewScope<B>(clock, now), item);
    } else {
      var s := rows[i].scope;
      CleanedHas(s.loaded, ttl, stale, clock, now, item);
      var later := now + CleanupReads(|s.loaded|, ttl);
      WithScopeHas(rows, i, CleanedScope(s, ttl, stale, clock, now).(lastActive := clock(later)), key, item);
    }
  }

  lemma NewHasNothing<B>(s: Scope<B>, item: Item<B>)
    requires s.loaded == []
    ensures !ScopeHas(s.loaded, item)
  {
  }

  lemma TidiedHas<K, B>(rows: seq<Row<K, B>>, whose: Option<K>, ttl: int, stale: B -> bool, clock: Readings, now: nat,
                        key: K, item: Item<B>)
    ensures RowsHave(Tidied(rows, whose, ttl, stale, clock, now), key, item) ==> RowsHave(rows, key, item)
  {
    hide ScopeHas, Cleaned;
    var i := FullRow(rows, whose);
    if i >= 0 {
      CleanedHas(rows[i].scope.loaded, ttl, stale, clock, now, item);
      WithScopeHas(rows, i, CleanedScope(rows[i].scope, ttl, stale, clock, now), key, item);
    }
  }

  lemma TouchedHas<K, B>(rows: seq<Row<K, B>>, whose: Option<K>, toolName: string, clock: Readings, now: nat, key: K,
                         item: Item<B>)
    ensures RowsHave(Touched(rows, whose, toolName, clock, now), key, item) ==> RowsHave(rows, key, item)
  {
    hide ScopeHas;
    var i := FullRow(rows, whose);
    if i >= 0 {
      var s := rows[i].scope;
      WithScopeHas(rows, i, Got(s, toolName, clock, now).scope, key, item);
      GotHas(s, toolName, clock, now, item);
    }
  }

  // ---------------------------------------------------------------- steps

  /** The step loads the tool under the key. */
  predicate StepLoads<K(==), B(==)>(step: TableStep<K, B>, key: K, item: Item<B>) {
    step.op.Fill? && step.op.at == key && ItemIn(step.op.items, item)
  }

  predicate StepDrops<K, B>(step: TableStep<K, B>, key: K) {
    step.op.Drop? && step.op.drop(key)
  }

  lemma SweptByHas<K, B>(rows: seq<Row<K, B>>, step: TableStep<K, B>, cfg: Settings, clock: Readings, key: K,
                         item: Item<B>)
    ensures RowsHave(SweptBy(rows, step, cfg, clock), key, item) ==> RowsHave(rows, key, item)
  {
    hide RowsHave, SweptRows;
    if step.sweep.Some? {
      SweptHas(rows, cfg.ttl, step.stale, clock, step.sweep.value, key, item);
    }
  }

  /** One step: a tool is under a key afterwards only if it was there before and the step does not
      drop the key, or if the step loads exactly it under exactly this key. */
  lemma AfterGains<K, B>(rows: seq<Row<K, B>>, step: TableStep<K, B>, cfg: Settings, clock: Readings, key: K,
                         item: Item<B>)
    ensures RowsHave(After(rows, step, cfg, clock), key, item)
        ==> (RowsHave(rows, key, item) && !StepDrops(step, key)) || StepLoads(step, key, item)
  {
    hide RowsHave, SweptBy, Filled, CappedRows, ReadRow, Tidied, Touched, Without, ItemIn;
    var swept := SweptBy(rows, step, cfg, clock);
    SweptByHas(rows, step, cfg, clock, key, item);
    match step.op
    case Keep =>
    case Fill(at, items, rules) => FilledHas(swept, at, items, rules, clock, step.now, key, item);
    case Beside(isNew) => CappedHas(swept, MaxScopes(cfg), key, item);
    case Look(whose, ttl, stale) => ReadHas(swept, whose, ttl, stale, clock, step.now, key, item);
    case Tidy(whose, ttl, stale) => TidiedHas(swept, whose, ttl, stale, clock, step.now, key, item);
    case Touch(whose, toolName) => TouchedHas(swept, whose, toolName, clock, step.now, key, item);
    case Drop(drop) => WithoutHas(swept, drop, key, item);
  }

  // ---------------------------------------------------------------- calls

  /** The call loads the server tool under the key: by an autoload or by a restore. */
  predicate Loads(e: Event, w: World, key: ServerKey, item: Item<ServerBinding>) {
    var o := ServerOrder(e, w);
    o.Some? && o.value.key == key && ItemIn(ServerItems(o.value.refs, e.generation), item)
  }

  predicate LoadsClient(e: Event, w: World, key: ClientKey, item: Item<ClientBinding>) {
    var o := ClientOrder(e, w);
    o.Some? && o.value.key == key && ItemIn(ClientItems(o.value.refs, key.device, o.value.version), item)
  }

  /** The call drops the pools of that key. */
  predicate Clears(call: Call, key: ServerKey) {
    call.ClearAll?
      || (call.Clear? && Given(call.conversation) && ServerKeysOf(call.conversation.value, call.agent)(key))
  }

  predicate ClearsClient(call: Call, key: ClientKey) {
    call.ClearAll?
      || (call.Clear? && Given(call.conversation) && ClientKeysOf(call.conversation.value, call.agent)(key))
  }

  lemma ServerStepMeans(r: Registry, e: Event, w: World, key: ServerKey, item: Item<ServerBinding>)
    ensures StepLoads(ServerStep(r, e, w), key, item) <==> Loads(e, w, key, item)
    ensures StepDrops(ServerStep(r, e, w), key) <==> Clears(e.call, key)
  {
    hide ItemIn, Swept, KeyFor, AutoloadKey, RestorableServer, RestorableClient, RowIndex, ServerItems;
  }

  lemma ClientStepMeans(r: Registry, e: Event, w: World, key: ClientKey, item: Item<ClientBinding>)
    ensures StepLoads(ClientStep(r, e, w), key, item) <==> LoadsClient(e, w, key, item)
    ensures StepDrops(ClientStep(r, e, w), key) <==> ClearsClient(e.call, key)
  {
    hide ItemIn, Swept, KeyFor, ReadKey, AutoloadKey, RestorableServer, RestorableClient, RowIndex, ClientItems;
  }

  /** One call: a tool is under a key afterwards only if it was there before and the call does not
      clear the key, or if the call loads exactly it under exactly this key. */
  lemma StepIsIsolated(r: Registry, e: Event, w: World, key: ServerKey, item: Item<ServerBinding>)
    ensures RowsHave(Next(r, e, w).server, key, item)
        ==> (RowsHave(r.server, key, item) && !Clears(e.call, key)) || Loads(e, w, key, item)
  {
    hide RowsHave, Next, ServerStep, After, Clears, Loads, StepLoads, StepDrops;
    CallsAreSteps(r, e, w);
    AfterGains(r.server, ServerStep(r, e, w), w.cfg, w.clock, key, item);
    ServerStepMeans(r, e, w, key, item);
  }

  lemma ClientStepIsIsolated(r: Registry, e: Event, w: World, key: ClientKey, item: Item<ClientBinding>)
    ensures RowsHave(Next(r, e, w).client, key, item)
        ==> (RowsHave(r.client, key, item) && !ClearsClient(e.call, key)) || LoadsClient(e, w, key, item)
  {
    hide RowsHave, Next, ClientStep, After, ClearsClient, LoadsClient, StepLoads, StepDrops;
    CallsAreSteps(r, e, w);
    AfterGains(r.client, ClientStep(r, e, w), w.cfg, w.clock, key, item);
    ClientStepMeans(r, e, w, key, item);
  }

  // ---------------------------------------------------------------- runs

  /** A call loaded the tool under the key, and after it and after every call since it was there. */
  predicate StayedSinceLoaded(events: seq<Event>, w: World, key: ServerKey, item: Item<ServerBinding>) {
    exists i :: 0 <= i < |events| && Loads(events[i], w, key, item)
             && forall j :: i < j <= |events| ==> RowsHave(Run(events[..j], w).server, key, item)
  }

  predicate ClientStayedSinceLoaded(events: seq<Event>, w: World, key: ClientKey, item: Item<ClientBinding>) {
    exists i :: 0 <= i < |events| && LoadsClient(events[i], w, key, item)
             && forall j :: i < j <= |events| ==> RowsHave(Run(events[..j], w).client, key, item)
  }

  lemma RunOneMore(events: seq<Event>, i: nat, w: World)
    requires i < |events|
    ensures Run(events[..i + 1], w) == Next(Run(events[..i], w), events[i], w)
  {
    hide Next;
    assert events[..i + 1][..i] == events[..i];
  }

  /** Over every run, a tool is under a key with a binding only if a call loaded it so under this
      very key, and it has been there ever since. */
  lemma RunsAreIsolated(events: seq<Event>, w: World, key: ServerKey, item: Item<ServerBinding>)
    ensures RowsHave(Run(events, w).server, key, item) ==> StayedSinceLoaded(events, w, key, item)
  {
    hide RowsHave, Loads, Run;
    if RowsHave(Run(events, w).server, key, item) {
      assert events[..|events|] == events;
      var i := LastLoad(events, |events|, w, key, item);
    }
  }

  lemma {:induction false} LastLoad(events: seq<Event>, n: nat, w: World, key: ServerKey, item: Item<ServerBinding>)
      returns (i: nat)
    requires n <= |events| && RowsHave(Run(events[..n], w).server, key, item)
    ensures i < n && Loads(events[i], w, key, item)
    ensures forall j :: i < j <= n ==> RowsHave(Run(events[..j], w).server, key, item)
  {
    hide RowsHave, Next, Loads, Clears, Run;
    i := n;
    if n == 0 {
      StartHasNothing(events, w);
      NoRowsHave(Run(events[..0], w).server, key, item);
    } else {
      RunOneMore(events, n - 1, w);
      StepIsIsolated(Run(events[..n - 1], w), events[n - 1], w, key, item);
      if RowsHave(Run(events[..n - 1], w).server, key, item) {
        i := LastLoad(events, n - 1, w, key, item);
      } else {
        i := n - 1;
      }
    }
  }

  lemma StartHasNothing(events: seq<Event>, w: World)
    ensures Run(events[..0], w).server == [] && Run(events[..0], w).client == []
  {
  }

  lemma ClientRunsAreIsolated(events: seq<Event>, w: World, key: ClientKey, item: Item<ClientBinding>)
    ensures RowsHave(Run(events, w).client, key, item) ==> ClientStayedSinceLoaded(events, w, key, item)
  {
    hide RowsHave, LoadsClient, Run;
    if RowsHave(Run(events, w).client, key, item) {
      assert events[..|events|] == events;
      var i := LastClientLoad(events, |events|, w, key, item);
    }
  }

  lemma {:induction false} LastClientLoad(events: seq<Event>, n: nat, w: World, key: ClientKey,
                                          item: Item<ClientBinding>)
      returns (i: nat)
    requires n <= |events| && RowsHave(Run(events[..n], w).client, key, item)
    ensures i < n && LoadsClient(events[i], w, key, item)
    ensures forall j :: i < j <= n ==> RowsHave(Run(events[..j], w).client, key, item)
  {
    hide RowsHave, Next, LoadsClient, ClearsClient, Run;
    i := n;
    if n == 0 {
      StartHasNothing(events, w);
      NoRowsHave(Run(events[..0], w).client, key, item);
    } else {
      RunOneMore(events, n - 1, w);
      ClientStepIsIsolated(Run(events[..n - 1], w), events[n - 1], w, key, item);
      if RowsHave(Run(events[..n - 1], w).client, key, item) {
        i := LastClientLoad(events, n - 1, w, key, item);
      } else {
        i := n - 1;
      }
    }
  }

  lemma NothingRead(r: Registry, w: World, generation: int)
    ensures GotLoadedClient(r, w.cfg, None, w.clock).1 == []
    ensures GotLoaded(r, w.cfg, generation, None, w.clock).1 == []
  {
  }

  lemma EmptyHasNothing<B>(loaded: seq<Entry<B>>, item: Item<B>)
    requires loaded == []
    ensures !ScopeHas(loaded, item)
  {
  }

  /** What a read returns: tools of the one key it names, and only ones that were loaded under it
      and have been there since. Without conversation, device or session it returns nothing. */
  lemma ReadsAreIsolated(events: seq<Event>, w: World, conversation: Option<string>, agent: Option<string>,
                         device: Option<string>,
                         session: Option<string>, active: Option<string>, item: Item<ClientBinding>)
    ensures var key := ReadKey(conversation, agent, device, session, active);
            var read := GotLoadedClient(Run(events, w), w.cfg, key, w.clock).1;
      && (ScopeHas(read, item) ==> key.Some? && ClientStayedSinceLoaded(events, w, key.value, item))
      && (!Given(conversation) || !Given(device) || (!Given(session) && !Given(active)) ==> read == [])
  {
    hide ClientStayedSinceLoaded, RowsHave, ScopeHas, Run, ReadRow;
    var key := ReadKey(conversation, agent, device, session, active);
    if key.Some? {
      ReadHas(Run(events, w).client, key, w.cfg.ttl, ClientStale(0), w.clock, Run(events, w).now, key.value, item);
      ClientRunsAreIsolated(events, w, key.value, item);
    } else {
      NothingRead(Run(events, w), w, 0);
      EmptyHasNothing(GotLoadedClient(Run(events, w), w.cfg, key, w.clock).1, item);
    }
  }

  /** The same for server tools: only tools of this conversation and agent, and none without a
      conversation. */
  lemma ServerReadsAreIsolated(events: seq<Event>, w: World, generation: int, conversation: Option<string>,
                               agent: Option<string>,
                               item: Item<ServerBinding>)
    ensures var key := KeyFor(conversation, agent);
            var read := GotLoaded(Run(events, w), w.cfg, generation, key, w.clock).1;
      && (ScopeHas(read, item) ==> key.Some? && StayedSinceLoaded(events, w, key.value, item))
      && (!Given(conversation) ==> read == [])
  {
    hide StayedSinceLoaded, RowsHave, ScopeHas, Run, ReadRow;
    var key := KeyFor(conversation, agent);
    if key.Some? {
      ReadHas(Run(events, w).server, key, w.cfg.ttl, ServerStale(generation), w.clock, Run(events, w).now, key.value,
              item);
      RunsAreIsolated(events, w, key.value, item);
    } else {
      NothingRead(Run(events, w), w, generation);
      EmptyHasNothing(GotLoaded(Run(events, w), w.cfg, generation, key, w.clock).1, item);
    }
  }

  // ---------------------------------------------------------------- keys

  lemma {:induction false} CappedKeys<K, B>(rows: seq<Row<K, B>>, max: nat, key: K)
    ensures HasRow(CappedRows(rows, max), key) ==> HasRow(rows, key)
    decreases |rows|
  {
    if |rows| > max {
      var quiet := QuietIndex(rows);
      var rest := RemoveAt(rows, quiet);
      CappedKeys(rest, max, key);
      assert forall i :: 0 <= i < |rest| ==> rest[i] == rows[if i < quiet then i else i + 1];
    }
  }

  lemma PutKeys<K, B>(rows: seq<Row<K, B>>, i: int, scope: Scope<B>, key: K)
    requires i < |rows|
    ensures HasRow(WithScope(rows, i, scope), key) <==> HasRow(rows, key)
  {
    var after := WithScope(rows, i, scope);
    assert forall j :: 0 <= j < |rows| ==> after[j].key == rows[j].key;
  }

  lemma FilledKeys<K, B>(rows: seq<Row<K, B>>, at: K, items: seq<Item<B>>, rules: Rules<B>, clock: Readings, now: nat,
                         key: K)
    ensures HasRow(Filled(rows, at, items, rules, clock, now), key) ==> HasRow(rows, key) || key == at
  {
    hide HasRow, CappedRows, Loading, PoolOf;
    var o := Open(rows, at, rules.maxScopes, clock, now);
    PutKeys(o.rows, o.index, Loading(rows, at, items, rules, clock, now).scope, key);
    if RowIndex(rows, at) < 0 {
      var row := Row(at, NewScope<B>(clock, now));
      CappedKeys(rows + [row], rules.maxScopes, key);
      PoolOfMore(rows, row, key);
    }
  }

  /** A step brings in no key but the one it loads under. */
  lemma AfterKeys<K, B>(rows: seq<Row<K, B>>, step: TableStep<K, B>, cfg: Settings, clock: Readings, key: K)
    ensures HasRow(After(rows, step, cfg, clock), key) ==> HasRow(rows, key) || (step.op.Fill? && step.op.at == key)
  {
    hide HasRow, SweptRows, Filled, CappedRows, Cleaned, Got, Without, FullRow;
    var swept := SweptBy(rows, step, cfg, clock);
    if step.sweep.Some? {
      SweepKeys(rows, cfg.ttl, step.stale, clock, step.sweep.value, key);
    }
    match step.op
    case Keep =>
    case Fill(at, items, rules) => FilledKeys(swept, at, items, rules, clock, step.now, key);
    case Beside(isNew) => CappedKeys(swept, MaxScopes(cfg), key);
    case Look(whose, ttl, stale) =>
      var i := FullRow(swept, whose);
      if i >= 0 {
        var later := step.now + CleanupReads(|swept[i].scope.loaded|, ttl);
        PutKeys(swept, i, CleanedScope(swept[i].scope, ttl, stale, clock, step.now).(lastActive := clock(later)), key);
      }
    case Tidy(whose, ttl, stale) =>
      var i := FullRow(swept, whose);
      if i >= 0 {
        PutKeys(swept, i, CleanedScope(swept[i].scope, ttl, stale, clock, step.now), key);
      }
    case Touch(whose, toolName) =>
      var i := FullRow(swept, whose);
      if i >= 0 {
        PutKeys(swept, i, Got(swept[i].scope, toolName, clock, step.now).scope, key);
      }
    case Drop(drop) => WithoutPool(swept, drop, key);
  }

  lemma OrderKeys(e: Event, w: World)
    ensures ServerOrder(e, w).Some?
         ==> ServerOrder(e, w).value.key.conversation != "" && ServerOrder(e, w).value.key.agent != ""
    ensures ClientOrder(e, w).Some? ==>
      var key := ClientOrder(e, w).value.key; key.conversation != "" && key.agent != "" && key.device != ""
  {
    hide RestorableServer, RestorableClient, EffectiveSession;
  }

  lemma StepKeys(r: Registry, e: Event, w: World, key: ServerKey, clientKey: ClientKey)
    ensures HasRow(Next(r, e, w).server, key) ==> HasRow(r.server, key) || (key.conversation != "" && key.agent != "")
    ensures HasRow(Next(r, e, w).client, clientKey)
        ==> || HasRow(r.client, clientKey)
            || (clientKey.conversation != "" && clientKey.agent != "" && clientKey.device != "")
  {
    hide Next, After, HasRow, ServerOrder, ClientOrder, Swept, SweepIsDue, ServerItems, ClientItems, RowIndex;
    hide SweptRows, KeyFor, ReadKey;
    CallsAreSteps(r, e, w);
    AfterKeys(r.server, ServerStep(r, e, w), w.cfg, w.clock, key);
    AfterKeys(r.client, ClientStep(r, e, w), w.cfg, w.clock, clientKey);
    OrderKeys(e, w);
  }

  /** Over every run, no pool is shared by callers that name no conversation, no agent or no
      device: no key of either table has an empty one. */
  lemma {:induction false} NoAnonymousPools(events: seq<Event>, w: World, key: ServerKey, clientKey: ClientKey)
    ensures HasRow(Run(events, w).server, key) ==> key.conversation != "" && key.agent != ""
    ensures HasRow(Run(events, w).client, clientKey)
        ==> clientKey.conversation != "" && clientKey.agent != "" && clientKey.device != ""
  {
    hide Next, HasRow;
    if events == [] {
      NoRows(Run(events, w).server, key);
      NoRows(Run(events, w).client, clientKey);
    } else {
      var init := events[..|events| - 1];
      NoAnonymousPools(init, w, key, clientKey);
      StepKeys(Run(init, w), events[|events| - 1], w, key, clientKey);
    }
  }
}
