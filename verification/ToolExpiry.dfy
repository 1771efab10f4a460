/** When a tool or a pool is idle, in seconds. */
module ToolExpiry {
  import opened Options
  import opened Picks
  import opened ToolScope
  import opened ToolRegistry
  import opened ToolRegistryRuns
  import opened ToolTables

  /** Unused for more than the TTL's minutes. */
  predicate Unused(since: real, ttl: int, now: real) {
    ttl > 0 && now - since > 60.0 * ttl as real
  }

  lemma IdleIsUnused(since: real, ttl: int, now: real)
    ensures IsIdle(since, ttl, now) <==> Unused(since, ttl, now)
  {
    Minutes(now - since, ttl);
  }

  /** Not stale, and with a TTL, used within that many minutes. */
  predicate InTime<B>(e: Entry<B>, ttl: int, stale: B -> bool, now: real) {
    !stale(e.binding) && (ttl <= 0 || now - e.lastUsed <= 60.0 * ttl as real)
  }

  lemma StaysInTime<B>(e: Entry<B>, ttl: int, stale: B -> bool, now: real)
    ensures Stays(e, ttl, stale, now) <==> InTime(e, ttl, stale, now)
  {
    Minutes(now - e.lastUsed, ttl);
  }

  /** These are the places of the entries that are in time, each at its own clock reading. */
  ghost predicate AreInTime<B>(at: seq<nat>, loaded: seq<Entry<B>>, ttl: int, stale: B -> bool, clock: Readings,
                               now: nat) {
    forall i: nat :: i < |loaded| ==> (i in at <==> InTime(loaded[i], ttl, stale, clock(now + i)))
  }

  /** What a cleanup keeps, place by place and in order: exactly the entries that are in time. */
  lemma {:induction false} KeptByTime<B>(loaded: seq<Entry<B>>, ttl: int, stale: B -> bool, clock: Readings, now: nat)
      returns (at: seq<nat>)
    ensures IsPick(Cleaned(loaded, ttl, stale, clock, now), loaded, at)
    ensures AreInTime(at, loaded, ttl, stale, clock, now)
  {
    hide Stays, InTime, IsPick, AreInTime, Cleaned;
    if loaded == [] {
      at := [];
      CleanedNothing<B>(ttl, stale, clock, now);
      NothingPicked(loaded, ttl, stale, clock, now);
    } else {
      var n := |loaded| - 1;
      var before := KeptByTime(loaded[..n], ttl, stale, clock, now);
      PickOneMore(Cleaned(loaded[..n], ttl, stale, clock, now), loaded, before, n);
      CleanedNext(loaded, ttl, stale, clock, now);
      at := if Stays(loaded[n], ttl, stale, clock(now + n)) then before + [n] else before;
      InTimeNext(loaded, before, ttl, stale, clock, now);
    }
  }

  lemma InTimeNext<B>(loaded: seq<Entry<B>>, at: seq<nat>, ttl: int, stale: B -> bool, clock: Readings, now: nat)
    requires loaded != [] && AreInTime(at, loaded[..|loaded| - 1], ttl, stale, clock, now)
    requires |loaded| - 1 !in at
    ensures var n := |loaded| - 1;
            var more := if Stays(loaded[n], ttl, stale, clock(now + n)) then at + [n] else at;
            AreInTime(more, loaded, ttl, stale, clock, now)
  {
    hide Stays, InTime;
    var n := |loaded| - 1;
    StaysInTime(loaded[n], ttl, stale, clock(now + n));
    assert forall i :: 0 <= i < n ==> loaded[..n][i] == loaded[i];
  }

  lemma CleanedNext<B>(loaded: seq<Entry<B>>, ttl: int, stale: B -> bool, clock: Readings, now: nat)
    requires loaded != []
    ensures var n := |loaded| - 1;
            var kept := Cleaned(loaded[..n], ttl, stale, clock, now);
      Cleaned(loaded, ttl, stale, clock, now)
        == if Stays(loaded[n], ttl, stale, clock(now + n)) then kept + [loaded[n]] else kept
  {
    hide Stays;
  }

  lemma NothingPicked<B>(loaded: seq<Entry<B>>, ttl: int, stale: B -> bool, clock: Readings, now: nat)
    requires loaded == []
    ensures IsPick([], loaded, []) && AreInTime([], loaded, ttl, stale, clock, now)
  {
  }

  lemma Minutes(seconds: real, ttl: int)
    ensures seconds / 60.0 > ttl as real <==> seconds > 60.0 * ttl as real
  {
  }

  /** A pool is abandoned when it is empty and nobody touched it within the TTL; without a TTL, as
      soon as it is empty. */
  lemma AbandonedByTime<B>(s: Scope<B>, ttl: int, now: real)
    ensures IsAbandoned(s, ttl, now) <==> s.loaded == [] && (ttl <= 0 || now - s.lastActive > 60.0 * ttl as real)
  {
    Minutes(now - s.lastActive, ttl);
  }

  // ---------------------------------------------------------------- reads

  /** What a read of a key returns is, in order, what its pool holds that is not stale and was used
      within the TTL of the entry's reading. */
  lemma ReadByTime<K, B>(rows: seq<Row<K, B>>, key: K, ttl: int, stale: B -> bool, clock: Readings, now: nat)
      returns (at: seq<nat>)
    ensures var pool := PoolOf(rows, key);
      && IsPick(ReadRow(rows, Some(key), ttl, stale, clock, now).loaded, pool, at)
      && AreInTime(at, pool, ttl, stale, clock, now)
  {
    hide Cleaned, RowIndex, AreInTime, IsPick;
    at := KeptByTime(PoolOf(rows, key), ttl, stale, clock, now);
    CleanedNothing<B>(ttl, stale, clock, now);
  }

  /** A tool that had been unused for longer than the TTL at any reading so far is not returned by a
      read, whatever happened in between, unless it was used again. */
  lemma IdleIsNotRead<K, B>(rows: seq<Row<K, B>>, key: K, ttl: int, stale: B -> bool, clock: Readings, now: nat,
                            e: Entry<B>, k: nat)
    requires NonDecreasing(clock) && ttl > 0 && k <= now && clock(k) - e.lastUsed > 60.0 * ttl as real
    ensures e !in ReadRow(rows, Some(key), ttl, stale, clock, now).loaded
  {
    hide ReadRow, PoolOf;
    var at := ReadByTime(rows, key, ttl, stale, clock, now);
    var read, pool := ReadRow(rows, Some(key), ttl, stale, clock, now).loaded, PoolOf(rows, key);
    forall j | 0 <= j < |read|
      ensures clock(k) - read[j].lastUsed <= 60.0 * ttl as real
    {
      assert at[j] in at && InTime(pool[at[j]], ttl, stale, clock(now + at[j]));
      assert clock(k) <= clock(now + at[j]);
    }
  }

  /** Over every run: what a read returns was used within the TTL of every reading taken before. */
  lemma ReadsReturnNoIdle(events: seq<Event>, w: World, generation: int, key: ServerKey, clientKey: ClientKey, k: nat)
    requires NonDecreasing(w.clock) && w.cfg.ttl > 0 && k <= Run(events, w).now
    ensures forall e :: e in GotLoaded(Run(events, w), w.cfg, generation, Some(key), w.clock).1 ==>
      e.binding.generation == generation && w.clock(k) - e.lastUsed <= 60.0 * w.cfg.ttl as real
    ensures forall e :: e in GotLoadedClient(Run(events, w), w.cfg, Some(clientKey), w.clock).1 ==>
      w.clock(k) - e.lastUsed <= 60.0 * w.cfg.ttl as real
  {
    hide Run, ReadRow, PoolOf;
    var r := Run(events, w);
    forall e | e in GotLoaded(r, w.cfg, generation, Some(key), w.clock).1
      ensures e.binding.generation == generation && w.clock(k) - e.lastUsed <= 60.0 * w.cfg.ttl as real
    {
      var at := ReadByTime(r.server, key, w.cfg.ttl, ServerStale(generation), w.clock, r.now);
      var read := GotLoaded(r, w.cfg, generation, Some(key), w.clock).1;
      var j :| 0 <= j < |read| && read[j] == e;
      var pool := PoolOf(r.server, key);
      assert at[j] in at && InTime(pool[at[j]], w.cfg.ttl, ServerStale(generation), w.clock(r.now + at[j]));
      assert w.clock(k) <= w.clock(r.now + at[j]);
    }
    forall e | e in GotLoadedClient(r, w.cfg, Some(clientKey), w.clock).1
      ensures w.clock(k) - e.lastUsed <= 60.0 * w.cfg.ttl as real
    {
      if w.clock(k) - e.lastUsed > 60.0 * w.cfg.ttl as real {
        IdleIsNotRead(r.client, clientKey, w.cfg.ttl, ClientStale(0), w.clock, r.now, e, k);
      }
    }
  }
}
