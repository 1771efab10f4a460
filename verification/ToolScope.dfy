/** app/ai/deferred_tool_state.py: one pool of loaded tools.

    The source has two such pools, `ConversationToolSet` for server tools and `ClientToolScope`
    for device tools. They run the same code over different bindings, so there is one class
    here, generic in the binding.

    Time is a supplied clock: every `_now()` takes its next reading, in the order in which the
    source evaluates them. So a step is a function of the pool, the clock and the number of the
    next reading, and says how many readings it took. */
module ToolScope {

  /** The readings of `time.monotonic()`, in the order they are taken. */
  type Readings = nat -> real

  ghost predicate NonDecreasing(clock: Readings) {
    forall i: nat, j: nat :: i <= j ==> clock(i) <= clock(j)
  }

  /** No reading from number 7 on, counted from 0, is the same as the second one after it. */
  ghost predicate NeverStalls(clock: Readings) {
    forall i: nat, j: nat :: 7 <= i && j == i + 2 ==> clock(i) < clock(j)
  }

  class MonotonicClock {
    const reading: Readings
    var ticks: nat

    constructor (reading: Readings)
      ensures this.reading == reading && ticks == 0
    {
      this.reading, ticks := reading, 0;
    }

    method Now() returns (t: real)
      modifies this
      ensures t == reading(old(ticks)) && ticks == old(ticks) + 1
    {
      t := reading(ticks);
      ticks := ticks + 1;
    }
  }

  /** A tool to load: the key it is stored under and what it is bound to. */
  datatype Item<B> = Item(key: string, binding: B)

  /** One item of the `loaded` dict. */
  datatype Entry<B> = Entry(key: string, binding: B, loadedAt: real, lastUsed: real)

  /** A pool's fields; `loaded` is a dict, kept in insertion order. */
  datatype Scope<B> = Scope(createdAt: real, lastActive: real, loaded: seq<Entry<B>>)

  // ---------------------------------------------------------------- the operations, on values

  function IndexOf<B>(loaded: seq<Entry<B>>, key: string): (i: int)
    ensures -1 <= i < |loaded|
    ensures i >= 0 ==> loaded[i].key == key
    ensures forall j :: 0 <= j < (if i >= 0 then i else |loaded|) ==> loaded[j].key != key
  {
    if |loaded| == 0 then -1
    else
      var i := IndexOf(loaded[..|loaded| - 1], key);
      if i >= 0 then i else if loaded[|loaded| - 1].key == key then |loaded| - 1 else -1
  }

  predicate IsIdle(since: real, ttl: int, now: real) {
    ttl > 0 && (now - since) / 60.0 > ttl as real
  }

  /** `min(loaded, key=last_used)`: the first of the least recently used. */
  function LruIndex<B>(loaded: seq<Entry<B>>): (i: nat)
    requires loaded != []
    ensures i < |loaded|
    ensures forall j :: 0 <= j < |loaded| ==> loaded[i].lastUsed <= loaded[j].lastUsed
    ensures forall j :: 0 <= j < i ==> loaded[i].lastUsed < loaded[j].lastUsed
  {
    if |loaded| == 1 then 0
    else
      var i := LruIndex(loaded[..|loaded| - 1]);
      if loaded[|loaded| - 1].lastUsed < loaded[i].lastUsed then |loaded| - 1 else i
  }

  function RemoveAt<T>(s: seq<T>, i: nat): (r: seq<T>)
    requires i < |s|
    ensures |r| == |s| - 1
  {
    s[..i] + s[i + 1..]
  }

  /** Evicting until there is room for one more; with no room at all, everything goes. */
  function MakeRoom<B>(loaded: seq<Entry<B>>, maxTools: int): (r: seq<Entry<B>>)
    ensures |r| < maxTools || (maxTools <= 0 && r == [])
    decreases |loaded|
  {
    if |loaded| < maxTools || loaded == [] then loaded
    else MakeRoom(RemoveAt(loaded, LruIndex(loaded)), maxTools)
  }

  /** What a step leaves: the pool, whether the tool is in it, and the next clock reading. */
  datatype Step<B> = Step(scope: Scope<B>, ok: bool, now: nat)

  function Added<B>(s: Scope<B>, key: string, binding: B, maxTools: int, clock: Readings, now: nat): Step<B> {
    var active := clock(now);
    var i := IndexOf(s.loaded, key);
    if i >= 0 then
      var touched := s.loaded[i].(binding := binding, lastUsed := clock(now + 1));
      Step(s.(lastActive := active, loaded := s.loaded[i := touched]), true, now + 2)
    else
      var room := MakeRoom(s.loaded, maxTools);
      if |room| >= maxTools then Step(s.(lastActive := active, loaded := room), false, now + 1)
      else
        var entry := Entry(key, binding, clock(now + 1), clock(now + 2));
        Step(s.(lastActive := active, loaded := room + [entry]), true, now + 3)
  }

  function Got<B>(s: Scope<B>, key: string, clock: Readings, now: nat): Step<B> {
    var active := clock(now);
    var i := IndexOf(s.loaded, key);
    if i >= 0 then
      var touched := s.loaded[i].(lastUsed := clock(now + 1));
      Step(s.(lastActive := active, loaded := s.loaded[i := touched]), true, now + 2)
    else Step(s.(lastActive := active), false, now + 1)
  }

  /** The pool after loading one tool after the other, and which of them it took. */
  datatype Load<B> = Load(scope: Scope<B>, oks: seq<bool>, now: nat)

  function AddedAll<B>(s: Scope<B>, items: seq<Item<B>>, maxTools: int, clock: Readings, now: nat): (r: Load<B>)
    ensures |r.oks| == |items|
  {
    if |items| == 0 then Load(s, [], now)
    else
      var before, last := AddedAll(s, items[..|items| - 1], maxTools, clock, now), items[|items| - 1];
      var step := Added(before.scope, last.key, last.binding, maxTools, clock, before.now);
      Load(step.scope, before.oks + [step.ok], step.now)
  }

  predicate Stays<B>(e: Entry<B>, ttl: int, stale: B -> bool, now: real) {
    !IsIdle(e.lastUsed, ttl, now) && !stale(e.binding)
  }

  /** The entries a cleanup keeps. With a TTL set it reads the clock once for each entry. */
  function Cleaned<B>(loaded: seq<Entry<B>>, ttl: int, stale: B -> bool, clock: Readings, now: nat): (r: seq<Entry<B>>)
    ensures |r| <= |loaded|
  {
    if |loaded| == 0 then []
    else
      var last := loaded[|loaded| - 1];
      Cleaned(loaded[..|loaded| - 1], ttl, stale, clock, now)
      + (if Stays(last, ttl, stale, clock(now + |loaded| - 1)) then [last] else [])
  }

  function CleanupReads(count: nat, ttl: int): nat {
    if ttl > 0 then count else 0
  }

  predicate IsAbandoned<B>(s: Scope<B>, ttl: int, now: real) {
    s.loaded == [] && (ttl <= 0 || IsIdle(s.lastActive, ttl, now))
  }

  function AbandonedReads<B>(s: Scope<B>, ttl: int): nat {
    if s.loaded == [] && ttl > 0 then 1 else 0
  }

  // ---------------------------------------------------------------- the pool

  class ToolPool<B> {
    var createdAt: real
    var lastActive: real
    var loaded: seq<Entry<B>>

    ghost function Value(): Scope<B>
      reads this
    {
      Scope(createdAt, lastActive, loaded)
    }

    constructor (clock: MonotonicClock)
      modifies clock
      ensures Value() == Scope(clock.reading(old(clock.ticks)), clock.reading(old(clock.ticks) + 1), [])
      ensures clock.ticks == old(clock.ticks) + 2
    {
      var created := clock.Now();
      var active := clock.Now();
      createdAt, lastActive, loaded := created, active, [];
    }

    method TouchScope(clock: MonotonicClock)
      modifies this`lastActive, clock
      ensures lastActive == clock.reading(old(clock.ticks)) && clock.ticks == old(clock.ticks) + 1
    {
      lastActive := clock.Now();
    }

    method EvictLru() returns (evicted: bool)
      modifies this`loaded
      ensures evicted <==> old(loaded) != []
      ensures evicted ==> loaded == RemoveAt(old(loaded), LruIndex(old(loaded)))
      ensures !evicted ==> loaded == old(loaded)
    {
      if loaded == [] {
        return false;
      }
      var lru := 0;
      for i := 1 to |loaded|
        invariant lru == LruIndex(loaded[..i])
      {
        assert loaded[..i + 1][..i] == loaded[..i];
        if loaded[i].lastUsed < loaded[lru].lastUsed {
          lru := i;
        }
      }
      assert loaded[..|loaded|] == loaded;
      loaded := loaded[..lru] + loaded[lru + 1..];
      return true;
    }

    method Add(key: string, binding: B, maxTools: int, clock: MonotonicClock) returns (ok: bool)
      modifies this, clock
      ensures Step(Value(), ok, clock.ticks)
           == Added(old(Value()), key, binding, maxTools, clock.reading, old(clock.ticks))
    {
      TouchScope(clock);
      var i := IndexOf(loaded, key);
      if i >= 0 {
        var now := clock.Now();
        loaded := loaded[i := loaded[i].(binding := binding, lastUsed := now)];
        return true;
      }
      while |loaded| >= maxTools
        invariant MakeRoom(loaded, maxTools) == MakeRoom(old(loaded), maxTools)
        invariant createdAt == old(createdAt) && lastActive == clock.reading(old(clock.ticks))
        invariant clock.ticks == old(clock.ticks) + 1
        decreases |loaded|
      {
        var evicted := EvictLru();
        if !evicted {
          return false;
        }
      }
      var loadedAt := clock.Now();
      var lastUsed := clock.Now();
      loaded := loaded + [Entry(key, binding, loadedAt, lastUsed)];
      return true;
    }

    method Get(key: string, clock: MonotonicClock) returns (ok: bool, binding: seq<B>)
      modifies this, clock
      ensures Step(Value(), ok, clock.ticks) == Got(old(Value()), key, clock.reading, old(clock.ticks))
      ensures binding == if ok then [old(loaded)[IndexOf(old(loaded), key)].binding] else []
    {
      TouchScope(clock);
      var i := IndexOf(loaded, key);
      if i < 0 {
        return false, [];
      }
      var now := clock.Now();
      loaded := loaded[i := loaded[i].(lastUsed := now)];
      return true, [loaded[i].binding];
    }

    method Cleanup(ttl: int, stale: B -> bool, clock: MonotonicClock)
      modifies this`loaded, clock
      ensures loaded == Cleaned(old(loaded), ttl, stale, clock.reading, old(clock.ticks))
      ensures clock.ticks == old(clock.ticks) + CleanupReads(|old(loaded)|, ttl)
    {
      var kept: seq<Entry<B>> := [];
      for i := 0 to |loaded|
        invariant loaded == old(loaded)
        invariant kept == Cleaned(loaded[..i], ttl, stale, clock.reading, old(clock.ticks))
        invariant clock.ticks == old(clock.ticks) + CleanupReads(i, ttl)
      {
        var entry := loaded[i];
        assert loaded[..i + 1][..i] == loaded[..i];
        var idle := false;
        if ttl > 0 {
          var now := clock.Now();
          idle := IsIdle(entry.lastUsed, ttl, now);
        }
        if !idle && !stale(entry.binding) {
          kept := kept + [entry];
        }
      }
      assert loaded[..|loaded|] == loaded;
      loaded := kept;
    }

    method Abandoned(ttl: int, clock: MonotonicClock) returns (gone: bool)
      modifies clock
      ensures gone == IsAbandoned(Value(), ttl, clock.reading(old(clock.ticks)))
      ensures clock.ticks == old(clock.ticks) + AbandonedReads(Value(), ttl)
    {
      if loaded != [] {
        return false;
      }
      if ttl <= 0 {
        return true;
      }
      var now := clock.Now();
      return IsIdle(lastActive, ttl, now);
    }

    method ListTools(clock: MonotonicClock) returns (tools: seq<Entry<B>>)
      modifies this`lastActive, clock
      ensures tools == loaded && lastActive == clock.reading(old(clock.ticks)) && clock.ticks == old(clock.ticks) + 1
    {
      TouchScope(clock);
      tools := loaded;
    }
  }
}
