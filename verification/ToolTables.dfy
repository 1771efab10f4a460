/** The pool of one key before and after what calls do to a table of pools. */
module ToolTables {
  import opened Options
  import opened ToolScope
  import opened ToolRegistry
  import opened ToolRegistryRuns

  lemma NoRowNoPool<K, B>(rows: seq<Row<K, B>>, key: K)
    ensures RowIndex(rows, key) >= 0 <==> HasRow(rows, key)
    ensures !HasRow(rows, key) ==> PoolOf(rows, key) == []
  {
  }

  lemma PoolOfMore<K, B>(init: seq<Row<K, B>>, last: Row<K, B>, key: K)
    ensures PoolOf(init + [last], key)
         == if HasRow(init, key) then PoolOf(init, key) else if last.key == key then last.scope.loaded else []
    ensures HasRow(init + [last], key) <==> HasRow(init, key) || last.key == key
  {
    assert (init + [last])[..|init|] == init;
    NoRowNoPool(init, key);
    NoRowNoPool(init + [last], key);
  }

  /** A sweep cleans the pool of a key; if it drops it, nothing was left in it. */
  lemma {:induction false} SweptPool<K, B>(rows: seq<Row<K, B>>, ttl: int, stale: B -> bool, clock: Readings, now: nat,
                                           key: K)
      returns (at: nat)
    requires DistinctRows(rows)
    ensures PoolOf(SweptRows(rows, ttl, stale, clock, now).rows, key)
         == Cleaned(PoolOf(rows, key), ttl, stale, clock, at)
    ensures now <= at && at + CleanupReads(|PoolOf(rows, key)|, ttl) <= SweptRows(rows, ttl, stale, clock, now).now
  {
    hide Cleaned, PoolOf, HasRow, DistinctRows, SweptRows;
    if rows == [] {
      at := now;
      NoPool(rows, ttl, stale, clock, now, key);
    } else {
      var init, last := rows[..|rows| - 1], rows[|rows| - 1];
      assert rows == init + [last];
      LastIsOther(init, last);
      at := SweptPool(init, ttl, stale, clock, now, key);
      var before := SweptRows(init, ttl, stale, clock, now);
      var cleaned := Row(last.key, CleanedScope(last.scope, ttl, stale, clock, before.now));
      SweepKeys(init, ttl, stale, clock, now, key);
      PoolOfMore(init, last, key);
      PoolOfMore(before.rows, cleaned, key);
      NoRowNoPool(init, key);
      NoRowNoPool(before.rows, key);
      SweptMore(init, last, ttl, stale, clock, now);
      if last.key == key {
        at := before.now;
      } else if !HasRow(init, key) {
        CleanedNothing<B>(ttl, stale, clock, at);
      } else if !HasRow(before.rows, key) {
        assert PoolOf(before.rows, key) == [];
      }
    }
  }

  lemma SweptMore<K, B>(init: seq<Row<K, B>>, last: Row<K, B>, ttl: int, stale: B -> bool, clock: Readings, now: nat)
    ensures var before := SweptRows(init, ttl, stale, clock, now);
            var swept := SweptRows(init + [last], ttl, stale, clock, now);
            var cleaned := CleanedScope(last.scope, ttl, stale, clock, before.now);
      || swept.rows == before.rows + [Row(last.key, cleaned)]
      || (swept.rows == before.rows && cleaned.loaded == [])
    ensures SweptRows(init + [last], ttl, stale, clock, now).now
         >= SweptRows(init, ttl, stale, clock, now).now + CleanupReads(|last.scope.loaded|, ttl)
  {
    hide Cleaned;
    assert (init + [last])[..|init|] == init;
  }

  lemma NoPool<K, B>(rows: seq<Row<K, B>>, ttl: int, stale: B -> bool, clock: Readings, now: nat, key: K)
    requires rows == []
    ensures PoolOf(SweptRows(rows, ttl, stale, clock, now).rows, key) == []
         == Cleaned(PoolOf(rows, key), ttl, stale, clock, now)
    ensures PoolOf(rows, key) == [] && SweptRows(rows, ttl, stale, clock, now).now == now
  {
  }

  lemma CleanedNothing<B>(ttl: int, stale: B -> bool, clock: Readings, at: nat)
    ensures Cleaned([], ttl, stale, clock, at) == []
  {
  }

  lemma LastIsOther<K, B>(init: seq<Row<K, B>>, last: Row<K, B>)
    requires DistinctRows(init + [last])
    ensures DistinctRows(init) && !HasRow(init, last.key)
  {
    var rows := init + [last];
    assert rows[|init|] == last && forall i :: 0 <= i < |init| ==> rows[i] == init[i];
  }

  lemma SweepKeys<K, B>(rows: seq<Row<K, B>>, ttl: int, stale: B -> bool, clock: Readings, now: nat, key: K)
    ensures HasRow(SweptRows(rows, ttl, stale, clock, now).rows, key) ==> HasRow(rows, key)
  {
    hide Cleaned, IsAbandoned;
    SweepIsPart(rows, ttl, stale, clock, now);
    var swept := SweptRows(rows, ttl, stale, clock, now).rows;
    if i :| 0 <= i < |swept| && swept[i].key == key {
      assert HasRow(rows, swept[i].key);
    }
  }

  /** At the start of a load, the pool of a key is what a cleanup leaves of it. */
  lemma AtLoadPool<K, B>(rows: seq<Row<K, B>>, key: K, rules: Rules<B>, clock: Readings, now: nat) returns (at: nat)
    ensures AtLoad(rows, key, rules, clock, now).0.loaded
         == Cleaned(PoolOf(rows, key), rules.ttl, rules.stale, clock, at)
    ensures now <= at && at + CleanupReads(|PoolOf(rows, key)|, rules.ttl) <= AtLoad(rows, key, rules, clock, now).1
  {
    hide Cleaned, CappedRows;
    at := Open(rows, key, rules.maxScopes, clock, now).now;
  }

  /** One tool loaded into an empty pool. */
  lemma AddedOne<B>(s: Scope<B>, item: Item<B>, maxTools: int, clock: Readings, now: nat)
    requires s.loaded == [] && maxTools >= 1
    ensures AddedAll(s, [item], maxTools, clock, now).scope.loaded
         == [Entry(item.key, item.binding, clock(now + 1), clock(now + 2))]
  {
    var none: seq<Item<B>> := [];
    assert [item][..0] == none && [item][0] == item;
    var before := AddedAll(s, none, maxTools, clock, now);
    assert before.scope == s && before.now == now;
  }

  /** Putting a pool back changes no other key's. */
  lemma PutElsewhere<K, B>(rows: seq<Row<K, B>>, i: nat, scope: Scope<B>, key: K)
    requires i < |rows| && RowIndex(rows, rows[i].key) == i
    ensures PoolOf(WithScope(rows, i, scope), key) == if key == rows[i].key then scope.loaded else PoolOf(rows, key)
  {
    var after := WithScope(rows, i, scope);
    assert forall j :: 0 <= j < |rows| ==> after[j].key == rows[j].key;
    assert RowIndex(after, key) == RowIndex(rows, key);
  }

  lemma {:induction false} WithoutPool<K, B>(rows: seq<Row<K, B>>, drop: K -> bool, key: K)
    ensures PoolOf(Without(rows, drop), key) == if drop(key) then [] else PoolOf(rows, key)
    ensures HasRow(Without(rows, drop), key) <==> HasRow(rows, key) && !drop(key)
  {
    hide PoolOf, HasRow;
    if rows == [] {
      NoRows(rows, key);
    } else {
      var init, last := rows[..|rows| - 1], rows[|rows| - 1];
      assert rows == init + [last];
      WithoutPool(init, drop, key);
      PoolOfMore(init, last, key);
      PoolOfMore(Without(init, drop), last, key);
      NoRowNoPool(init, key);
      NoRowNoPool(Without(init, drop), key);
      assert Without(init, drop) + [] == Without(init, drop);
    }
  }

  lemma NoRows<K, B>(rows: seq<Row<K, B>>, key: K)
    requires rows == []
    ensures PoolOf(rows, key) == [] && !HasRow(rows, key)
  {
  }

  /** The pool that makes room for a new one: the first of the least recently active. */
  predicate IsVictim<K(==), B>(rows: seq<Row<K, B>>, at: K, maxScopes: nat, key: K) {
    RowIndex(rows, at) < 0 && |rows| >= maxScopes && rows != [] && rows[QuietIndex(rows)].key == key
  }

  lemma {:induction false} QuietOfMore<K, B>(rows: seq<Row<K, B>>, row: Row<K, B>)
    requires rows != [] && ActiveBy(rows, row.scope.lastActive)
    ensures QuietIndex(rows + [row]) == QuietIndex(rows)
  {
    assert (rows + [row])[..|rows|] == rows;
    assert (rows + [row])[|rows|] == row;
  }

  lemma RemovedPool<K, B>(rows: seq<Row<K, B>>, i: nat, key: K)
    requires DistinctRows(rows) && i < |rows|
    ensures PoolOf(RemoveAt(rows, i), key) == if rows[i].key == key then [] else PoolOf(rows, key)
  {
    hide RowIndex;
    var rest := RemoveAt(rows, i);
    assert forall j :: 0 <= j < |rest| ==> rest[j] == rows[if j < i then j else j + 1];
    NoRowNoPool(rows, key);
    NoRowNoPool(rest, key);
    if j :| 0 <= j < |rows| && rows[j].key == key && j != i {
      var j' := if j < i then j else j - 1;
      assert rest[j'] == rows[j];
      OneRow(rows, j, key);
      OneRow(rest, j', key);
    }
  }

  lemma OneRow<K, B>(rows: seq<Row<K, B>>, i: nat, key: K)
    requires DistinctRows(rows) && i < |rows| && rows[i].key == key
    ensures RowIndex(rows, key) == i && PoolOf(rows, key) == rows[i].scope.loaded
  {
  }

  /** The cap after a new pool: at most one other goes. */
  lemma CappedOnceMore<K, B>(rows: seq<Row<K, B>>, row: Row<K, B>, maxScopes: nat)
    requires maxScopes >= 1 && |rows| <= maxScopes && ActiveBy(rows, row.scope.lastActive)
    ensures CappedRows(rows + [row], maxScopes)
         == if |rows| < maxScopes then rows + [row] else RemoveAt(rows, QuietIndex(rows)) + [row]
  {
    if |rows| == maxScopes {
      QuietOfMore(rows, row);
      var rest := RemoveAt(rows + [row], QuietIndex(rows));
      assert rest == RemoveAt(rows, QuietIndex(rows)) + [row];
      assert CappedRows(rest, maxScopes) == rest;
    }
  }

  /** Opening a pool leaves every other one as it was, but for the victim of the cap. */
  lemma OpenedElsewhere<K, B>(rows: seq<Row<K, B>>, at: K, maxScopes: nat, clock: Readings, now: nat, key: K)
    requires TableOk(rows, maxScopes, clock, now) && NonDecreasing(clock) && maxScopes >= 1 && key != at
    ensures PoolOf(Open(rows, at, maxScopes, clock, now).rows, key)
         == if IsVictim(rows, at, maxScopes, key) then [] else PoolOf(rows, key)
  {
    hide CappedRows, RowIndex, PoolOf, QuietIndex, HasRow;
    if RowIndex(rows, at) < 0 {
      var row := Row(at, NewScope<B>(clock, now));
      GrownRows(rows, row, clock, now);
      CappedOnceMore(rows, row, maxScopes);
      PoolOfMore(rows, row, key);
      NoRowNoPool(rows, key);
      if |rows| >= maxScopes {
        var rest := RemoveAt(rows, QuietIndex(rows));
        RemovedPool(rows, QuietIndex(rows), key);
        PoolOfMore(rest, row, key);
        NoRowNoPool(rest, key);
      }
    }
  }

  /** A load under one key changes the pool of another exactly when it drops it: when the key loaded
      under is new, the table is full, and the other pool is the first of the least recently
      active and holds anything. */
  lemma FilledElsewhere<K, B>(rows: seq<Row<K, B>>, at: K, items: seq<Item<B>>, rules: Rules<B>, clock: Readings,
                              now: nat, key: K)
    requires TableOk(rows, rules.maxScopes, clock, now) && NonDecreasing(clock) && rules.maxScopes >= 1 && key != at
    ensures var filled := Filled(rows, at, items, rules, clock, now);
      && PoolOf(filled, key) == (if IsVictim(rows, at, rules.maxScopes, key) then [] else PoolOf(rows, key))
      && (PoolOf(filled, key) == PoolOf(rows, key)
          <==> !IsVictim(rows, at, rules.maxScopes, key) || PoolOf(rows, key) == [])
  {
    hide Open, Loading, TableOk, RowIndex, PoolOf, IsVictim;
    OpenedElsewhere(rows, at, rules.maxScopes, clock, now, key);
    OpenedIsThere(rows, at, rules.maxScopes, clock, now);
    var o := Open(rows, at, rules.maxScopes, clock, now);
    PutElsewhere(o.rows, o.index, Loading(rows, at, items, rules, clock, now).scope, key);
  }
}
