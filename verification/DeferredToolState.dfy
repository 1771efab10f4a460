/** app/ai/deferred_tool_state.py: the registry in place, over tables of pool objects.

    Each method does to the object what its function in module ToolRegistry does to a value. A
    pool fetched from a table is the table's own object: writing to it changes the table, as
    long as the cap has not dropped it.

    The tables are sequences of rows in insertion order. All pools in them are different
    objects, so a change of one pool shows in one row of one table; a load adds at most one
    pool, and the sweep and the cap only take pools away. */
module DeferredToolState {
  import opened Options
  import opened ToolScope
  import opened ToolRegistry

  datatype TableRow<K, B> = TableRow(key: K, pool: ToolPool<B>)

  ghost function Pools<K, B>(rows: seq<TableRow<K, B>>): set<object> {
    set i | 0 <= i < |rows| :: rows[i].pool
  }

  ghost predicate Separate<K, B>(rows: seq<TableRow<K, B>>) {
    forall i, j :: 0 <= i < j < |rows| ==> rows[i].pool != rows[j].pool
  }

  ghost function View<K, B>(rows: seq<TableRow<K, B>>): (view: seq<Row<K, B>>)
    reads Pools(rows)
    ensures |view| == |rows|
    ensures forall i :: 0 <= i < |rows| ==> view[i] == Row(rows[i].key, rows[i].pool.Value())
  {
    seq(|rows|, i requires 0 <= i < |rows| reads Pools(rows) => Row(rows[i].key, rows[i].pool.Value()))
  }

  function Find<K(==), B>(rows: seq<TableRow<K, B>>, key: K): (i: int)
    ensures -1 <= i < |rows|
    ensures i >= 0 ==> rows[i].key == key
    ensures forall j :: 0 <= j < (if i >= 0 then i else |rows|) ==> rows[j].key != key
  {
    if |rows| == 0 then -1
    else
      var i := Find(rows[..|rows| - 1], key);
      if i >= 0 then i else if rows[|rows| - 1].key == key then |rows| - 1 else -1
  }

  /** `kept` is the part of `rows` at the places `at`. */
  ghost predicate Picked<K, B>(kept: seq<TableRow<K, B>>, rows: seq<TableRow<K, B>>, at: seq<nat>, bound: nat) {
    && |at| == |kept| && bound <= |rows|
    && (forall j :: 0 <= j < |at| ==> at[j] < bound && kept[j] == rows[at[j]])
    && (forall j, k :: 0 <= j < k < |at| ==> at[j] < at[k])
  }

  lemma PickedIsPart<K, B>(kept: seq<TableRow<K, B>>, rows: seq<TableRow<K, B>>, at: seq<nat>, bound: nat)
    requires Picked(kept, rows, at, bound) && Separate(rows)
    ensures Separate(kept) && Pools(kept) <= Pools(rows)
    ensures forall row :: row in kept ==> row in rows
  {
    forall j | 0 <= j < |kept|
      ensures kept[j].pool in Pools(rows)
    {
      assert kept[j] == rows[at[j]];
    }
  }

  lemma SweptOneMore<K, B>(rows: seq<Row<K, B>>, i: nat, ttl: int, stale: B -> bool, clock: Readings, now: nat)
    requires i < |rows|
    ensures var before := SweptRows(rows[..i], ttl, stale, clock, now);
            var cleaned := CleanedScope(rows[i].scope, ttl, stale, clock, before.now);
            var afterwards := before.now + CleanupReads(|rows[i].scope.loaded|, ttl);
      && SweptRows(rows[..i + 1], ttl, stale, clock, now)
         == Sweep(before.rows
                  + (if IsAbandoned(cleaned, ttl, clock(afterwards)) then [] else [Row(rows[i].key, cleaned)]),
                  afterwards + AbandonedReads(cleaned, ttl))
  {
    hide Cleaned, IsAbandoned;
    assert rows[..i + 1][..i] == rows[..i];
  }

  /** Clean a pool, and say whether it is abandoned then. */
  method SweepPool<B>(pool: ToolPool<B>, ttl: int, stale: B -> bool, clock: MonotonicClock) returns (abandoned: bool)
    modifies pool, clock
    ensures pool.Value() == CleanedScope(old(pool.Value()), ttl, stale, clock.reading, old(clock.ticks))
    ensures var afterwards := old(clock.ticks) + CleanupReads(|old(pool.Value()).loaded|, ttl);
      && abandoned == IsAbandoned(pool.Value(), ttl, clock.reading(afterwards))
      && clock.ticks == afterwards + AbandonedReads(pool.Value(), ttl)
  {
    hide Cleaned, IsAbandoned, AbandonedReads, CleanupReads;
    pool.Cleanup(ttl, stale, clock);
    abandoned := pool.Abandoned(ttl, clock);
  }

  /** Clean every pool and keep those that are not abandoned. */
  method SweepRows<K, B>(rows: seq<TableRow<K, B>>, ttl: int, stale: B -> bool, clock: MonotonicClock)
      returns (kept: seq<TableRow<K, B>>)
    requires Separate(rows)
    modifies Pools(rows), clock
    ensures Separate(kept) && Pools(kept) <= Pools(rows)
    ensures Sweep(View(kept), clock.ticks) == SweptRows(old(View(rows)), ttl, stale, clock.reading, old(clock.ticks))
  {
    hide SweptRows, CleanedScope, IsAbandoned, AbandonedReads, CleanupReads, View;
    kept := [];
    ghost var before := View(rows);
    ghost var at: seq<nat> := [];
    ghost var view: seq<Row<K, B>> := [];
    SweptNone(before[..0], ttl, stale, clock.reading, clock.ticks);
    for i := 0 to |rows|
      invariant Picked(kept, rows, at, i)
      invariant forall j :: i <= j < |rows| ==> rows[j].pool.Value() == before[j].scope
      invariant |view| == |kept|
      invariant forall j :: 0 <= j < |kept| ==> view[j] == Row(kept[j].key, kept[j].pool.Value())
      invariant Sweep(view, clock.ticks) == SweptRows(before[..i], ttl, stale, clock.reading, old(clock.ticks))
    {
      SweptOneMore(before, i, ttl, stale, clock.reading, old(clock.ticks));
      var pool := rows[i].pool;
      assert forall j :: 0 <= j < |kept| ==> kept[j].pool != pool;
      var abandoned := SweepPool(pool, ttl, stale, clock);
      if !abandoned {
        kept, at, view := kept + [rows[i]], at + [i], view + [Row(rows[i].key, pool.Value())];
      } else {
        assert view + [] == view;
      }
    }
    PickedIsPart(kept, rows, at, |rows|);
    assert before[..|rows|] == before;
    assert View(kept) == view;
  }

  /** Sweep one table and then another. */
  method SweepBoth<K, B, L, C>(rows: seq<TableRow<K, B>>, others: seq<TableRow<L, C>>, ttl: int, stale: B -> bool,
                               otherStale: C -> bool, clock: MonotonicClock)
      returns (kept: seq<TableRow<K, B>>, otherKept: seq<TableRow<L, C>>)
    requires Separate(rows) && Separate(others) && Pools(rows) !! Pools(others)
    modifies Pools(rows), Pools(others), clock
    ensures Separate(kept) && Separate(otherKept) && Pools(kept) <= Pools(rows) && Pools(otherKept) <= Pools(others)
    ensures var first := SweptRows(old(View(rows)), ttl, stale, clock.reading, old(clock.ticks));
      && View(kept) == first.rows
      && Sweep(View(otherKept), clock.ticks) == SweptRows(old(View(others)), ttl, otherStale, clock.reading, first.now)
  {
    hide SweptRows, View, Separate;
    ghost var before := View(others);
    kept := SweepRows(rows, ttl, stale, clock);
    ghost var swept := View(kept);
    ViewChanged(others, before, -1);
    otherKept := SweepRows(others, ttl, otherStale, clock);
    ViewChanged(kept, swept, -1);
  }

  lemma SweptNone<K, B>(rows: seq<Row<K, B>>, ttl: int, stale: B -> bool, clock: Readings, now: nat)
    requires rows == []
    ensures SweptRows(rows, ttl, stale, clock, now) == Sweep([], now)
  {
  }

  lemma ViewInit<K, B>(rows: seq<TableRow<K, B>>)
    requires rows != []
    ensures View(rows[..|rows| - 1]) == View(rows)[..|rows| - 1]
  {
  }

  /** The first of the least recently active pools. */
  function Quietest<K, B>(rows: seq<TableRow<K, B>>): (quiet: nat)
    requires rows != []
    reads Pools(rows)
    ensures quiet == QuietIndex(View(rows))
  {
    ViewInit(rows);
    if |rows| == 1 then 0
    else
      assert Pools(rows[..|rows| - 1]) <= Pools(rows) by {
        assert forall i :: 0 <= i < |rows| - 1 ==> rows[..|rows| - 1][i] == rows[i];
      }
      var quiet := Quietest(rows[..|rows| - 1]);
      if rows[|rows| - 1].pool.lastActive < rows[quiet].pool.lastActive then |rows| - 1 else quiet
  }

  lemma PickedWithout<K, B>(kept: seq<TableRow<K, B>>, rows: seq<TableRow<K, B>>, at: seq<nat>, bound: nat, i: nat)
    requires Picked(kept, rows, at, bound) && i < |kept|
    ensures Picked(RemoveAt(kept, i), rows, RemoveAt(at, i), bound)
  {
    var kept', at' := RemoveAt(kept, i), RemoveAt(at, i);
    assert forall j :: 0 <= j < |kept'| ==> kept'[j] == kept[if j < i then j else j + 1];
    assert forall j :: 0 <= j < |kept'| ==> at'[j] == at[if j < i then j else j + 1];
  }

  lemma ViewWithout<K, B>(rows: seq<TableRow<K, B>>, i: nat)
    requires i < |rows|
    ensures View(RemoveAt(rows, i)) == RemoveAt(View(rows), i)
  {
    hide View;
    var rows' := RemoveAt(rows, i);
    assert forall j :: 0 <= j < |rows'| ==> rows'[j] == rows[if j < i then j else j + 1];
  }

  /** Drop the least recently active pools until no more than `max` are left. */
  method CapRows<K, B>(rows: seq<TableRow<K, B>>, max: nat) returns (kept: seq<TableRow<K, B>>)
    requires Separate(rows)
    ensures Separate(kept) && Pools(kept) <= Pools(rows) && forall row :: row in kept ==> row in rows
    ensures View(kept) == CappedRows(View(rows), max)
  {
    hide QuietIndex, View, Separate, Picked, RemoveAt;
    kept := rows;
    ghost var at: seq<nat> := seq(|rows|, i => i);
    AllPicked(rows, at);
    while |kept| > max
      invariant Picked(kept, rows, at, |rows|)
      invariant CappedRows(View(kept), max) == CappedRows(View(rows), max)
      decreases |kept|
    {
      var quiet := Quietest(kept);
      PickedSize(kept, rows, at);
      PickedWithout(kept, rows, at, |rows|, quiet);
      ViewWithout(kept, quiet);
      CappedOnce(View(kept), max);
      kept, at := RemoveAt(kept, quiet), RemoveAt(at, quiet);
    }
    CappedOnce(View(kept), max);
    PickedIsPart(kept, rows, at, |rows|);
  }

  lemma CappedOnce<K, B>(rows: seq<Row<K, B>>, max: nat)
    ensures CappedRows(rows, max) == if |rows| <= max then rows else CappedRows(RemoveAt(rows, QuietIndex(rows)), max)
  {
  }

  lemma PickedSize<K, B>(kept: seq<TableRow<K, B>>, rows: seq<TableRow<K, B>>, at: seq<nat>)
    requires Picked(kept, rows, at, |rows|)
    ensures |at| == |kept|
  {
  }

  lemma AllPicked<K, B>(rows: seq<TableRow<K, B>>, at: seq<nat>)
    requires |at| == |rows| && forall i :: 0 <= i < |rows| ==> at[i] == i
    ensures Picked(rows, rows, at, |rows|)
  {
  }

  lemma FoundInView<K, B>(rows: seq<TableRow<K, B>>, key: K)
    ensures Find(rows, key) == RowIndex(View(rows), key)
  {
    hide View;
    var i, j := Find(rows, key), RowIndex(View(rows), key);
    assert i >= 0 ==> View(rows)[i].key == key;
    assert j >= 0 ==> rows[j].key == key;
  }

  /** The row of a new pool after the cap: still in the table, or the pool is out of it. */
  lemma NewRowIsFound<K, B>(before: seq<TableRow<K, B>>, row: TableRow<K, B>, kept: seq<TableRow<K, B>>)
    requires Find(before, row.key) < 0 && row.pool !in Pools(before)
    requires forall r :: r in kept ==> r in before + [row]
    ensures var i := Find(kept, row.key); if i >= 0 then kept[i] == row else row.pool !in Pools(kept)
  {
    forall i | 0 <= i < |kept|
      ensures kept[i].key == row.key || kept[i].pool == row.pool ==> kept[i] == row
    {
      assert kept[i] in before + [row];
    }
  }

  lemma ViewAppend<K, B>(rows: seq<TableRow<K, B>>, row: TableRow<K, B>)
    ensures View(rows + [row]) == View(rows) + [Row(row.key, row.pool.Value())]
    ensures Pools(rows + [row]) == Pools(rows) + {row.pool}
    ensures Separate(rows) && row.pool !in Pools(rows) ==> Separate(rows + [row])
  {
    hide View;
    var more := rows + [row];
    assert more[|rows|] == row && forall i :: 0 <= i < |rows| ==> more[i] == rows[i];
  }

  /** A table after a change to one of its pools, or to none. */
  lemma ViewChanged<K, B>(rows: seq<TableRow<K, B>>, before: seq<Row<K, B>>, i: int)
    requires -1 <= i < |rows| == |before|
    requires forall j :: 0 <= j < |rows| ==>
      before[j].key == rows[j].key && (j != i ==> before[j].scope == rows[j].pool.Value())
    ensures View(rows) == if i < 0 then before else WithScope(before, i, rows[i].pool.Value())
  {
    hide View;
  }

  /** The row of a key whose pool is not empty. */
  function FindFull<K(==), B>(rows: seq<TableRow<K, B>>, key: Option<K>): (i: int)
    reads Pools(rows)
    ensures i == FullRow(View(rows), key)
  {
    if key.None? then -1
    else
      FoundInView(rows, key.value);
      var i := Find(rows, key.value);
      if i >= 0 && rows[i].pool.loaded != [] then i else -1
  }

  /** Load one tool after the other, and say which ones were taken. */
  method AddItems<B>(pool: ToolPool<B>, items: seq<Item<B>>, maxTools: int, clock: MonotonicClock)
      returns (oks: seq<bool>)
    modifies pool, clock
    ensures Load(pool.Value(), oks, clock.ticks)
         == AddedAll(old(pool.Value()), items, maxTools, clock.reading, old(clock.ticks))
  {
    hide Added;
    oks := [];
    for i := 0 to |items|
      invariant Load(pool.Value(), oks, clock.ticks)
           == AddedAll(old(pool.Value()), items[..i], maxTools, clock.reading, old(clock.ticks))
    {
      assert items[..i + 1][..i] == items[..i];
      var ok := pool.Add(items[i].key, items[i].binding, maxTools, clock);
      oks := oks + [ok];
    }
    assert items[..|items|] == items;
  }

  lemma NothingPicked<K, B>(rows: seq<TableRow<K, B>>, view: seq<Row<K, B>>, drop: K -> bool)
    ensures Picked([], rows, [], 0) && View<K, B>([]) == [] == Without(view[..0], drop)
  {
  }

  lemma PickedOneMore<K, B>(kept: seq<TableRow<K, B>>, rows: seq<TableRow<K, B>>, at: seq<nat>, i: nat)
    requires Picked(kept, rows, at, i) && i < |rows|
    ensures Picked(kept, rows, at, i + 1) && Picked(kept + [rows[i]], rows, at + [i], i + 1)
  {
  }

  lemma WithoutOneMore<K, B>(rows: seq<Row<K, B>>, i: nat, drop: K -> bool)
    requires i < |rows|
    ensures Without(rows[..i + 1], drop) == Without(rows[..i], drop) + (if drop(rows[i].key) then [] else [rows[i]])
    ensures Without(rows[..i], drop) + [] == Without(rows[..i], drop)
  {
    assert rows[..i + 1][..i] == rows[..i];
  }

  /** The rows whose keys are not dropped. */
  method KeepRows<K, B>(rows: seq<TableRow<K, B>>, drop: K -> bool) returns (kept: seq<TableRow<K, B>>)
    requires Separate(rows)
    ensures Separate(kept) && Pools(kept) <= Pools(rows)
    ensures View(kept) == Without(View(rows), drop)
  {
    hide View, Without, Picked, Separate;
    kept := [];
    ghost var at: seq<nat> := [];
    ghost var view := View(rows);
    NothingPicked(rows, view, drop);
    for i := 0 to |rows|
      invariant Picked(kept, rows, at, i)
      invariant View(kept) == Without(view[..i], drop)
    {
      WithoutOneMore(view, i, drop);
      PickedOneMore(kept, rows, at, i);
      if !drop(rows[i].key) {
        ViewAppend(kept, rows[i]);
        kept, at := kept + [rows[i]], at + [i];
      }
    }
    assert view[..|rows|] == view;
    PickedIsPart(kept, rows, at, |rows|);
  }

  /** A row for a new pool. */
  method NewRow<K, B>(key: K, clock: MonotonicClock) returns (row: TableRow<K, B>)
    modifies clock
    ensures fresh(row.pool) && row.key == key && clock.ticks == old(clock.ticks) + 2
    ensures row.pool.Value() == NewScope(clock.reading, old(clock.ticks))
  {
    var pool := new ToolPool<B>(clock);
    row := TableRow(key, pool);
  }

  /** The pool of a key, created and capped when there is none: the table's own object, or one
      that the cap has dropped from it. */
  method OpenRow<K(==), B>(rows: seq<TableRow<K, B>>, key: K, maxScopes: nat, clock: MonotonicClock)
    returns (kept: seq<TableRow<K, B>>, pool: ToolPool<B>, ghost index: int)
    requires Separate(rows)
    modifies clock
    ensures Separate(kept) && Pools(kept) <= Pools(rows) + {pool} && (pool in Pools(rows) || fresh(pool))
    ensures Opened(View(kept), pool.Value(), index, Find(rows, key) < 0, clock.ticks)
         == Open(old(View(rows)), key, maxScopes, clock.reading, old(clock.ticks))
    ensures if index >= 0 then index < |kept| && kept[index].pool == pool else pool !in Pools(kept)
  {
    hide View, CappedRows, Separate, RowIndex, Find, NewScope;
    FoundInView(rows, key);
    index := Find(rows, key);
    var i := Find(rows, key);
    if i >= 0 {
      return rows, rows[i].pool, i;
    }
    ghost var before := View(rows);
    var row := NewRow(key, clock);
    ViewChanged(rows, before, -1);
    ViewAppend(rows, row);
    kept := CapRows(rows + [row], maxScopes);
    pool := row.pool;
    NewRowIsFound(rows, row, kept);
    FoundInView(kept, key);
    index := Find(kept, key);
  }

  /** Open the pool of a key, clean it and load tools into it. */
  method FillRow<K(==), B>(rows: seq<TableRow<K, B>>, key: K, items: seq<Item<B>>, rules: Rules<B>,
                           clock: MonotonicClock)
    returns (kept: seq<TableRow<K, B>>, oks: seq<bool>)
    requires Separate(rows)
    modifies Pools(rows), clock
    ensures Separate(kept) && fresh(Pools(kept) - Pools(rows))
    ensures View(kept) == Filled(old(View(rows)), key, items, rules, clock.reading, old(clock.ticks))
    ensures var load := Loading(old(View(rows)), key, items, rules, clock.reading, old(clock.ticks));
            oks == load.oks && clock.ticks == load.now
  {
    hide View, Cleaned, AddedAll, Open, Find;
    var pool;
    ghost var index;
    kept, pool, index := OpenRow(rows, key, rules.maxScopes, clock);
    ghost var before := View(kept);
    pool.Cleanup(rules.ttl, rules.stale, clock);
    oks := AddItems(pool, items, rules.maxTools, clock);
    ViewChanged(kept, before, index);
  }

  /** Clean and touch the pool of a key, and say what is left in it. */
  method ReadPool<K(==), B>(rows: seq<TableRow<K, B>>, key: Option<K>, ttl: int, stale: B -> bool,
                            clock: MonotonicClock)
    returns (loaded: seq<Entry<B>>)
    requires Separate(rows)
    modifies Pools(rows), clock
    ensures RowRead(View(rows), loaded, clock.ticks)
         == ReadRow(old(View(rows)), key, ttl, stale, clock.reading, old(clock.ticks))
  {
    hide View, Cleaned;
    var i := FindFull(rows, key);
    if i < 0 {
      return [];
    }
    ghost var before := View(rows);
    var pool := rows[i].pool;
    pool.Cleanup(ttl, stale, clock);
    loaded := pool.ListTools(clock);
    ViewChanged(rows, before, i);
  }

  /** Clean the pool of a key, if it has one with tools, and say what is left in it. */
  method CleanPool<K(==), B>(rows: seq<TableRow<K, B>>, key: Option<K>, ttl: int, stale: B -> bool,
                             clock: MonotonicClock)
    returns (loaded: seq<Entry<B>>)
    requires Separate(rows)
    modifies Pools(rows), clock
    ensures var before, i := old(View(rows)), FullRow(old(View(rows)), key);
      if i < 0 then loaded == [] && View(rows) == before && clock.ticks == old(clock.ticks)
      else
        && loaded == Cleaned(before[i].scope.loaded, ttl, stale, clock.reading, old(clock.ticks))
        && View(rows) == WithScope(before, i, before[i].scope.(loaded := loaded))
        && clock.ticks == old(clock.ticks) + CleanupReads(|before[i].scope.loaded|, ttl)
  {
    hide View, Cleaned;
    var i := FindFull(rows, key);
    if i < 0 {
      return [];
    }
    ghost var before := View(rows);
    var pool := rows[i].pool;
    pool.Cleanup(ttl, stale, clock);
    ViewChanged(rows, before, i);
    return pool.loaded;
  }

  /** The table beside one that got a new pool. */
  method CapBeside<K, B>(rows: seq<TableRow<K, B>>, isNew: bool, cfg: Settings) returns (kept: seq<TableRow<K, B>>)
    requires Separate(rows)
    ensures Separate(kept) && Pools(kept) <= Pools(rows)
    ensures View(kept) == CappedBeside(View(rows), isNew, cfg)
  {
    hide View, CappedRows;
    if isNew {
      kept := CapRows(rows, MaxScopes(cfg));
    } else {
      kept := rows;
    }
  }

  /** What `list_tools` says of a server tool. */
  function References(loaded: seq<Entry<ServerBinding>>): (refs: seq<ToolReference>)
    ensures |refs| == |loaded|
    ensures forall i :: 0 <= i < |loaded| ==>
      && refs[i].callName == Some(loaded[i].key)
      && refs[i].toolName == loaded[i].binding.toolName && refs[i].serverName == loaded[i].binding.serverName
  {
    seq(|loaded|, i requires 0 <= i < |loaded| =>
      ToolReference(loaded[i].binding.toolName, loaded[i].binding.serverName, Some(loaded[i].key)))
  }

  class DeferredToolState {
    const clock: MonotonicClock
    var conversationTools: seq<TableRow<ServerKey, ServerBinding>>
    var clientToolScopes: seq<TableRow<ClientKey, ClientBinding>>
    var lastSweep: real

    ghost function Repr(): set<object>
      reads this
    {
      Pools(conversationTools) + Pools(clientToolScopes)
    }

    ghost predicate Valid()
      reads this
    {
      && Separate(conversationTools) && Separate(clientToolScopes)
      && Pools(conversationTools) !! Pools(clientToolScopes)
    }

    ghost function Value(): Registry
      reads this, clock, Repr()
    {
      Registry(View(conversationTools), View(clientToolScopes), lastSweep, clock.ticks)
    }

    constructor (clock: MonotonicClock)
      modifies clock
      ensures Valid() && Repr() == {} && this.clock == clock
      ensures Value() == Registry([], [], clock.reading(old(clock.ticks)), old(clock.ticks) + 1)
    {
      var now := clock.Now();
      this.clock := clock;
      conversationTools, clientToolScopes, lastSweep := [], [], now;
    }

    /** At most once in a minute. */
    method MaybeSweep(cfg: Settings, generation: int)
      requires Valid()
      modifies this, clock, Repr()
      ensures Valid() && Repr() <= old(Repr())
      ensures Value() == Swept(old(Value()), cfg, generation, clock.reading)
    {
      hide SweptRows, View, Separate, ServerStale, ClientStale;
      var now := clock.Now();
      if now - lastSweep < SWEEP_MIN_INTERVAL_SECONDS {
        return;
      }
      var server, client := SweepBoth(conversationTools, clientToolScopes, cfg.ttl, ServerStale(generation),
                                      ClientStale(0), clock);
      conversationTools, clientToolScopes, lastSweep := server, client, now;
    }

    /** Load into the pool of a key; a new pool caps both tables. */
    method FillServer(key: ServerKey, items: seq<Item<ServerBinding>>, rules: Rules<ServerBinding>, cfg: Settings)
        returns (oks: seq<bool>)
      requires Valid()
      modifies this`conversationTools, this`clientToolScopes, clock, Repr()
      ensures Valid() && fresh(Repr() - old(Repr()))
      ensures var before := old(Value());
              var load := Loading(before.server, key, items, rules, clock.reading, before.now);
        && oks == load.oks
        && Value() == before.(server := Filled(before.server, key, items, rules, clock.reading, before.now),
                              client := CappedBeside(before.client, RowIndex(before.server, key) < 0, cfg),
                              now := load.now)
    {
      hide View, Loading, Filled, Separate, Find, RowIndex, CappedBeside;
      FoundInView(conversationTools, key);
      var beside := CapBeside(clientToolScopes, Find(conversationTools, key) < 0, cfg);
      ghost var view := View(beside);
      var filled;
      filled, oks := FillRow(conversationTools, key, items, rules, clock);
      ViewChanged(beside, view, -1);
      conversationTools, clientToolScopes := filled, beside;
    }

    /** `autoload`. */
    method Autoload(conversation: Option<string>, agent: Option<string>, refs: seq<ToolReference>, maxTools: int,
                    generation: int, cfg: Settings) returns (loaded: seq<ToolReference>)
      requires Valid()
      modifies this, clock, Repr()
      ensures Valid() && fresh(Repr() - old(Repr()))
      ensures (Value(), loaded)
           == Autoloaded(old(Value()), cfg, generation, KeyFor(conversation, agent), refs, maxTools, clock.reading)
    {
      hide View, Swept, Loading, Filled, Separate, RowIndex, CappedBeside, KeyFor, ServerItems, Taken;
      var key := KeyFor(conversation, agent);
      if key.None? {
        return [];
      }
      MaybeSweep(cfg, generation);
      var oks := FillServer(key.value, ServerItems(refs, generation), ServerRules(cfg, generation, maxTools), cfg);
      return Taken(refs, oks);
    }

    /** Load into the pool of a key; a new pool caps both tables. */
    method FillClient(key: ClientKey, items: seq<Item<ClientBinding>>, rules: Rules<ClientBinding>, cfg: Settings)
        returns (oks: seq<bool>)
      requires Valid()
      modifies this`conversationTools, this`clientToolScopes, clock, Repr()
      ensures Valid() && fresh(Repr() - old(Repr()))
      ensures var before := old(Value());
              var load := Loading(before.client, key, items, rules, clock.reading, before.now);
        && oks == load.oks
        && Value() == before.(client := Filled(before.client, key, items, rules, clock.reading, before.now),
                              server := CappedBeside(before.server, RowIndex(before.client, key) < 0, cfg),
                              now := load.now)
    {
      hide View, Loading, Filled, Separate, Find, RowIndex, CappedBeside;
      FoundInView(clientToolScopes, key);
      var beside := CapBeside(conversationTools, Find(clientToolScopes, key) < 0, cfg);
      ghost var view := View(beside);
      var filled;
      filled, oks := FillRow(clientToolScopes, key, items, rules, clock);
      ViewChanged(beside, view, -1);
      clientToolScopes, conversationTools := filled, beside;
    }

    /** `autoload_client_tools`; `active` is the session the device is serving at that moment. */
    method AutoloadClientTools(conversation: Option<string>, agent: Option<string>, refs: seq<ClientReference>,
                               device: Option<string>,
                               session: Option<string>, active: Option<string>, catalogVersion: int, maxTools: int,
                               generation: int, cfg: Settings) returns (loaded: seq<ClientReference>)
      requires Valid()
      modifies this, clock, Repr()
      ensures Valid() && fresh(Repr() - old(Repr()))
      ensures var key := AutoloadKey(conversation, agent, device, session, refs, active);
        (Value(), loaded)
          == AutoloadedClient(old(Value()), cfg, generation, catalogVersion, key, refs, maxTools, clock.reading)
    {
      hide View, Swept, Loading, Filled, Separate, RowIndex, CappedBeside, AutoloadKey, ClientItems, Taken;
      var key := AutoloadKey(conversation, agent, device, session, refs, active);
      if key.None? {
        return [];
      }
      MaybeSweep(cfg, generation);
      var oks := FillClient(key.value, ClientItems(refs, key.value.device, catalogVersion),
                            ClientRules(cfg, catalogVersion, maxTools), cfg);
      return Taken(refs, oks);
    }

    /** `get_loaded`. */
    method GetLoaded(conversation: Option<string>, agent: Option<string>, generation: int, cfg: Settings)
        returns (tools: seq<ToolReference>)
      requires Valid()
      modifies clock, Repr()
      ensures Valid() && Repr() == old(Repr())
      ensures var (after, loaded) := GotLoaded(old(Value()), cfg, generation, KeyFor(conversation, agent),
                                               clock.reading);
        && Value() == after && |tools| == |loaded|
        && (forall i :: 0 <= i < |tools| ==>
              && tools[i].callName == Some(loaded[i].key)
              && tools[i].toolName == loaded[i].binding.toolName
              && tools[i].serverName == loaded[i].binding.serverName)
    {
      hide View, ReadRow, References;
      ghost var before := Value();
      var loaded := ReadPool(conversationTools, KeyFor(conversation, agent), cfg.ttl, ServerStale(generation), clock);
      ViewChanged(clientToolScopes, before.client, -1);
      return References(loaded);
    }

    /** `get_loaded_client_tools`. */
    method GetLoadedClientTools(conversation: Option<string>, agent: Option<string>, device: Option<string>,
                                session: Option<string>,
                                active: Option<string>, cfg: Settings) returns (tools: seq<Entry<ClientBinding>>)
      requires Valid()
      modifies clock, Repr()
      ensures Valid() && Repr() == old(Repr())
      ensures (Value(), tools)
           == GotLoadedClient(old(Value()), cfg, ReadKey(conversation, agent, device, session, active), clock.reading)
    {
      hide View, ReadRow;
      ghost var before := Value();
      tools := ReadPool(clientToolScopes, ReadKey(conversation, agent, device, session, active), cfg.ttl,
                        ClientStale(0), clock);
      ViewChanged(conversationTools, before.server, -1);
    }

    /** `mark_tool_used`, and the look-ups of the server and of the raw name behind a tool. */
    method UseTool(conversation: Option<string>, agent: Option<string>, toolName: string)
        returns (binding: Option<ServerBinding>)
      requires Valid()
      modifies clock, Repr()
      ensures Valid() && Repr() == old(Repr())
      ensures (Value(), binding) == Used(old(Value()), KeyFor(conversation, agent), toolName, clock.reading)
    {
      hide View;
      var i := FindFull(conversationTools, KeyFor(conversation, agent));
      if i < 0 {
        return None;
      }
      ghost var before := Value();
      var pool := conversationTools[i].pool;
      var ok, bound := pool.Get(toolName, clock);
      ViewChanged(conversationTools, before.server, i);
      ViewChanged(clientToolScopes, before.client, -1);
      return if ok then Some(bound[0]) else None;
    }

    /** `snapshot`. */
    method TakeSnapshot(conversation: Option<string>, agent: Option<string>, device: Option<string>,
                        session: Option<string>,
                        active: Option<string>, runtimeId: string, generation: int, cfg: Settings)
        returns (snapshot: Snapshot)
      requires Valid()
      modifies clock, Repr()
      ensures Valid() && Repr() == old(Repr())
      ensures (Value(), snapshot)
           == SnapshotTaken(old(Value()), cfg, generation, runtimeId, KeyFor(conversation, agent),
                                                   ReadKey(conversation, agent, device, session, active), clock.reading)
    {
      hide View, Cleaned, ServerEntries, ClientEntries, GotLoadedClient, WithScope, Separate;
      ghost var before := Value();
      var serverTools := CleanPool(conversationTools, KeyFor(conversation, agent), cfg.ttl, ServerStale(generation),
                                   clock);
      ViewChanged(clientToolScopes, before.client, -1);
      var key := ReadKey(conversation, agent, device, session, active);
      var clientTools := GetLoadedClientTools(conversation, agent, device, session, active, cfg);
      return Snapshot(runtimeId, ServerEntries(serverTools),
                      ClientEntries(clientTools, if key.Some? then key.value.session else ""));
    }

    /** `restore`, its server half and then its client half. */
    method Restore(conversation: Option<string>, agent: Option<string>, snapshot: Snapshot, device: Option<string>,
                   session: Option<string>, active: Option<string>, catalogVersion: int, runtimeId: string,
                   generation: int, cfg: Settings) returns (serverTools: nat, clientTools: nat)
      requires Valid()
      modifies this, clock, Repr()
      ensures Valid() && fresh(Repr() - old(Repr()))
      ensures var server := RestoredServer(old(Value()), cfg, generation, runtimeId, KeyFor(conversation, agent),
                                           snapshot, clock.reading);
              var client := RestoredClient(server.0, cfg, generation, runtimeId, conversation, agent, device, session,
                                           active,
                                           catalogVersion, snapshot, clock.reading);
              Value() == client.0 && serverTools == server.1 && clientTools == client.1
    {
      hide View, Autoloaded, AutoloadedClient, RestorableServer, RestorableClient;
      var same := snapshot.runtimeId == runtimeId;
      var loaded := Autoload(conversation, agent, RestorableServer(snapshot.serverTools, same, generation),
                             cfg.maxTools, generation, cfg);
      serverTools, clientTools := |loaded|, 0;
      if Given(device) {
        var effective := if Given(session) then session else active;
        var refs := RestorableClient(snapshot.clientTools, device.value, effective, if same then catalogVersion else 0);
        if refs != [] {
          var loadedHere := AutoloadClientTools(conversation, agent, refs, device, effective, active, catalogVersion,
                                                cfg.maxTools, generation, cfg);
          clientTools := |loadedHere|;
        }
      }
    }

    /** `clear_conversation`. */
    method ClearConversation(conversation: Option<string>, agent: Option<string>) returns (cleared: nat)
      requires Valid()
      modifies this`conversationTools, this`clientToolScopes
      ensures Valid() && Repr() <= old(Repr())
      ensures (Value(), cleared) == Cleared(old(Value()), conversation, agent)
    {
      hide View, Without;
      if !Given(conversation) {
        return 0;
      }
      var count := |conversationTools| + |clientToolScopes|;
      conversationTools := KeepRows(conversationTools, ServerKeysOf(conversation.value, agent));
      clientToolScopes := KeepRows(clientToolScopes, ClientKeysOf(conversation.value, agent));
      return count - (|conversationTools| + |clientToolScopes|);
    }

    /** `clear_all`. */
    method ClearAll() returns (count: nat)
      requires Valid()
      modifies this, clock
      ensures Valid() && Repr() == {} && count == |old(conversationTools)| + |old(clientToolScopes)|
      ensures Value() == Registry([], [], clock.reading(old(clock.ticks)), old(clock.ticks) + 1)
    {
      count := |conversationTools| + |clientToolScopes|;
      conversationTools, clientToolScopes := [], [];
      lastSweep := clock.Now();
    }
  }
}
