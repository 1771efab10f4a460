/** A pool of loaded tools is a bounded move-to-front list. */
module LruRefinement {
  // The pool keeps insertion order and a time stamp on every tool; eviction looks for the
  // smallest stamp. This behaves exactly like a list with the most recently used tool in front,
  // cut at the capacity, if and only if the clock never stalls: it may repeat a reading, but not
  // over three readings. Then no stamp that decides an eviction is equal to a later one.

  import opened ToolScope

  // ---------------------------------------------------------------- the simple form

  predicate HasKey<B>(list: seq<Item<B>>, key: string) {
    exists i :: 0 <= i < |list| && list[i].key == key
  }

  function ListKeep<B>(list: seq<Item<B>>, keep: string -> bool): seq<Item<B>> {
    if |list| == 0 then [] else (if keep(list[0].key) then [list[0]] else []) + ListKeep(list[1..], keep)
  }

  function Except(key: string): string -> bool {
    k => k != key
  }

  /** Put the item in front; a new one pushes the last ones out of a full list. */
  function ListAdd<B>(list: seq<Item<B>>, key: string, binding: B, max: nat): seq<Item<B>>
    requires max >= 1
  {
    [Item(key, binding)] +
      if HasKey(list, key) then ListKeep(list, Except(key)) else if |list| < max then list else list[..max - 1]
  }

  function BindingOf<B>(list: seq<Item<B>>, key: string): B
    requires HasKey(list, key)
  {
    if list[0].key == key then list[0].binding else BindingOf(list[1..], key)
  }

  /** Move the item to the front. */
  function ListUse<B>(list: seq<Item<B>>, key: string): seq<Item<B>> {
    if HasKey(list, key) then [Item(key, BindingOf(list, key))] + ListKeep(list, Except(key)) else list
  }

  // ---------------------------------------------------------------- recency

  /** The pool's tools in the reverse of the order in which they would be evicted. */
  function Recency<B>(loaded: seq<Entry<B>>): (r: seq<Entry<B>>)
    ensures |r| == |loaded|
  {
    if loaded == [] then []
    else
      var lru := LruIndex(loaded);
      Recency(RemoveAt(loaded, lru)) + [loaded[lru]]
  }

  function KeepBy<B>(s: seq<Entry<B>>, keep: string -> bool): seq<Entry<B>> {
    if |s| == 0 then [] else (if keep(s[0].key) then [s[0]] else []) + KeepBy(s[1..], keep)
  }

  function Items<B>(r: seq<Entry<B>>): (items: seq<Item<B>>)
    ensures |items| == |r|
    ensures forall i :: 0 <= i < |r| ==> items[i] == Item(r[i].key, r[i].binding)
  {
    if |r| == 0 then [] else [Item(r[0].key, r[0].binding)] + Items(r[1..])
  }

  predicate DistinctKeys<B>(loaded: seq<Entry<B>>) {
    forall i, j :: 0 <= i < j < |loaded| ==> loaded[i].key != loaded[j].key
  }

  predicate AllNewer<B>(s: seq<Entry<B>>, t: real) {
    forall i :: 0 <= i < |s| ==> s[i].lastUsed > t
  }

  predicate NoneOlder<B>(s: seq<Entry<B>>, t: real) {
    forall i :: 0 <= i < |s| ==> s[i].lastUsed >= t
  }

  predicate AllOlder<B>(s: seq<Entry<B>>, t: real) {
    forall i :: 0 <= i < |s| ==> s[i].lastUsed < t
  }

  predicate NoneNewer<B>(s: seq<Entry<B>>, t: real) {
    forall i :: 0 <= i < |s| ==> s[i].lastUsed <= t
  }

  /** All but the first were used before. */
  predicate TailOlder<B>(s: seq<Entry<B>>, t: real) {
    forall i :: 1 <= i < |s| ==> s[i].lastUsed < t
  }

  lemma RemoveMiddle<T>(a: seq<T>, x: T, b: seq<T>)
    ensures RemoveAt(a + [x] + b, |a|) == a + b
  {
  }

  lemma LruIs<B>(a: seq<Entry<B>>, x: Entry<B>, b: seq<Entry<B>>)
    requires AllNewer(a, x.lastUsed) && NoneOlder(b, x.lastUsed)
    ensures LruIndex(a + [x] + b) == |a|
  {
    hide LruIndex;
    var s := a + [x] + b;
    assert s[|a|] == x;
    assert forall i :: 0 <= i < |a| ==> s[i] == a[i];
    assert forall i :: |a| < i < |s| ==> s[i] == b[i - |a| - 1];
  }

  /** The pool around the tool that is evicted next. */
  lemma LruSplit<B>(loaded: seq<Entry<B>>) returns (a: seq<Entry<B>>, x: Entry<B>, b: seq<Entry<B>>)
    requires loaded != []
    ensures loaded == a + [x] + b && AllNewer(a, x.lastUsed) && NoneOlder(b, x.lastUsed)
    ensures Recency(loaded) == Recency(a + b) + [x]
  {
    var lru := LruIndex(loaded);
    a, x, b := loaded[..lru], loaded[lru], loaded[lru + 1..];
  }

  lemma RecencySplit<B>(a: seq<Entry<B>>, x: Entry<B>, b: seq<Entry<B>>)
    requires AllNewer(a, x.lastUsed) && NoneOlder(b, x.lastUsed)
    ensures Recency(a + [x] + b) == Recency(a + b) + [x]
  {
    LruIs(a, x, b);
    RemoveMiddle(a, x, b);
    assert (a + [x] + b)[|a|] == x;
  }

  lemma SplitLeft<T>(a: seq<T>, b: seq<T>, a': seq<T>, x: T, b': seq<T>) returns (c: seq<T>)
    requires a + b == a' + [x] + b' && |a'| < |a|
    ensures a == a' + [x] + c && b' == c + b
  {
    c := a[|a'| + 1..];
    assert a == (a + b)[..|a|];
    assert b == (a + b)[|a|..];
    assert b' == (a' + [x] + b')[|a'| + 1..];
  }

  lemma SplitRight<T>(a: seq<T>, b: seq<T>, a': seq<T>, x: T, b': seq<T>) returns (c: seq<T>)
    requires a + b == a' + [x] + b' && |a'| >= |a|
    ensures b == c + [x] + b' && a' == a + c
  {
    c := b[..|a'| - |a|];
    assert b == (a + b)[|a|..];
    assert a' == (a' + [x] + b')[..|a'|];
    assert b' == (a' + [x] + b')[|a'| + 1..];
  }

  /** The newest tool is the last to be evicted, wherever it stands; tools that stand before it
      may even have the same stamp. */
  lemma {:induction false} NewestIsFirst<B>(a: seq<Entry<B>>, e: Entry<B>, b: seq<Entry<B>>)
    requires NoneNewer(a, e.lastUsed) && AllOlder(b, e.lastUsed)
    ensures Recency(a + [e] + b) == [e] + Recency(a + b)
    decreases |a| + |b|
  {
    hide Recency;
    if a + b == [] {
      NoRecency(e);
      assert a + [e] + b == [e] && a + b == [];
    } else {
      var a', x, b' := LruSplit(a + b);
      if |a'| < |a| {
        var c := SplitLeft(a, b, a', x, b');
        GroupLeft(a', x, c, e, b);
        NotNewerParts(a', x, c, e.lastUsed);
        NoneOlderInsert(c, e, b, x.lastUsed);
        RecencySplit(a', x, c + [e] + b);
        NewestIsFirst(a' + c, e, b);
      } else {
        var c := SplitRight(a, b, a', x, b');
        GroupRight(a, e, c, x, b');
        OlderParts(c, x, b', e.lastUsed);
        assert AllNewer(a + [e] + c, x.lastUsed) by {
          assert forall i :: 0 <= i < |a| ==> a'[i] == a[i];
          assert forall i :: 0 <= i < |c| ==> a'[|a| + i] == c[i];
        }
        RecencySplit(a + [e] + c, x, b');
        NewestIsFirst(a, e, c + b');
      }
      assert [e] + Recency(a' + b') + [x] == [e] + (Recency(a' + b') + [x]);
    }
  }

  lemma GroupLeft<T>(a: seq<T>, x: T, c: seq<T>, e: T, b: seq<T>)
    ensures (a + [x] + c) + [e] + b == a + [x] + (c + [e] + b)
    ensures a + (c + [e] + b) == (a + c) + [e] + b && (a + c) + b == a + (c + b)
  {
  }

  lemma GroupRight<T>(a: seq<T>, e: T, c: seq<T>, x: T, b: seq<T>)
    ensures a + [e] + (c + [x] + b) == (a + [e] + c) + [x] + b
    ensures (a + [e] + c) + b == a + [e] + (c + b) && a + (c + b) == (a + c) + b
  {
  }

  lemma OlderParts<B>(a: seq<Entry<B>>, x: Entry<B>, b: seq<Entry<B>>, t: real)
    requires AllOlder(a + [x] + b, t)
    ensures AllOlder(a + b, t) && x.lastUsed < t
  {
    var s := a + [x] + b;
    assert s[|a|] == x;
    assert forall i :: 0 <= i < |a| ==> s[i] == a[i];
    assert forall i :: 0 <= i < |b| ==> s[|a| + 1 + i] == b[i];
  }

  lemma NotNewerParts<B>(a: seq<Entry<B>>, x: Entry<B>, b: seq<Entry<B>>, t: real)
    requires NoneNewer(a + [x] + b, t)
    ensures NoneNewer(a + b, t) && x.lastUsed <= t
  {
    var s := a + [x] + b;
    assert s[|a|] == x;
    assert forall i :: 0 <= i < |a| ==> s[i] == a[i];
    assert forall i :: 0 <= i < |b| ==> s[|a| + 1 + i] == b[i];
  }

  lemma NoneOlderInsert<B>(a: seq<Entry<B>>, e: Entry<B>, b: seq<Entry<B>>, t: real)
    requires NoneOlder(a + b, t) && e.lastUsed >= t
    ensures NoneOlder(a + [e] + b, t)
  {
    assert forall i :: 0 <= i < |a| ==> (a + b)[i] == a[i];
    assert forall i :: 0 <= i < |b| ==> (a + b)[|a| + i] == b[i];
  }

  lemma NoRecency<B>(e: Entry<B>)
    ensures Recency<B>([]) == [] && Recency([e]) == [e]
  {
    assert RemoveAt([e], 0) == [];
  }

  lemma {:induction false} KeepByAppend<B>(a: seq<Entry<B>>, b: seq<Entry<B>>, keep: string -> bool)
    ensures KeepBy(a + b, keep) == KeepBy(a, keep) + KeepBy(b, keep)
  {
    if a == [] {
      assert a + b == b;
    } else {
      assert (a + b)[1..] == a[1..] + b;
      KeepByAppend(a[1..], b, keep);
    }
  }

  lemma {:induction false} KeepByBounds<B>(s: seq<Entry<B>>, keep: string -> bool, t: real)
    ensures AllNewer(s, t) ==> AllNewer(KeepBy(s, keep), t)
    ensures NoneOlder(s, t) ==> NoneOlder(KeepBy(s, keep), t)
  {
    if s != [] {
      KeepByBounds(s[1..], keep, t);
    }
  }

  lemma KeepByOne<B>(x: Entry<B>, keep: string -> bool)
    ensures KeepBy([x], keep) == if keep(x.key) then [x] else []
  {
    assert [x][1..] == [];
  }

  lemma KeepAround<B>(a: seq<Entry<B>>, x: Entry<B>, b: seq<Entry<B>>, keep: string -> bool)
    ensures KeepBy(a + [x] + b, keep) == KeepBy(a, keep) + (if keep(x.key) then [x] else []) + KeepBy(b, keep)
    ensures KeepBy(a + b, keep) == KeepBy(a, keep) + KeepBy(b, keep)
  {
    hide KeepBy;
    KeepByAppend(a + [x], b, keep);
    KeepByAppend(a, [x], keep);
    KeepByAppend(a, b, keep);
    KeepByOne(x, keep);
  }

  /** Taking tools out does not change the order of the others. */
  lemma {:induction false} RecencyKeeps<B>(loaded: seq<Entry<B>>, keep: string -> bool)
    ensures Recency(KeepBy(loaded, keep)) == KeepBy(Recency(loaded), keep)
    decreases |loaded|
  {
    if loaded != [] {
      var a, x, b := LruSplit(loaded);
      RecencyKeeps(a + b, keep);
      KeepOneMore(a, x, b, keep);
    }
  }

  lemma KeepOneMore<B>(a: seq<Entry<B>>, x: Entry<B>, b: seq<Entry<B>>, keep: string -> bool)
    requires AllNewer(a, x.lastUsed) && NoneOlder(b, x.lastUsed)
    requires Recency(KeepBy(a + b, keep)) == KeepBy(Recency(a + b), keep)
    ensures Recency(KeepBy(a + [x] + b, keep)) == KeepBy(Recency(a + b) + [x], keep)
  {
    hide Recency, KeepBy, AllNewer, NoneOlder;
    var ka, kb := KeepBy(a, keep), KeepBy(b, keep);
    KeepAround(a, x, b, keep);
    KeepByAppend(Recency(a + b), [x], keep);
    KeepByOne(x, keep);
    if keep(x.key) {
      KeepByBounds(a, keep, x.lastUsed);
      KeepByBounds(b, keep, x.lastUsed);
      RecencySplit(ka, x, kb);
    } else {
      assert ka + [] + kb == ka + kb;
      assert KeepBy(Recency(a + b), keep) + [] == KeepBy(Recency(a + b), keep);
    }
  }

  lemma {:induction false} ItemsKeep<B>(r: seq<Entry<B>>, keep: string -> bool)
    ensures Items(KeepBy(r, keep)) == ListKeep(Items(r), keep)
  {
    if r != [] {
      ItemsKeep(r[1..], keep);
      assert Items(r)[1..] == Items(r[1..]);
      if keep(r[0].key) {
        assert KeepBy(r, keep)[1..] == KeepBy(r[1..], keep);
      }
    }
  }

  /** The victims go off the end of the recency order. */
  lemma {:induction false} EvictionCutsTheEnd<B>(loaded: seq<Entry<B>>, max: nat)
    requires max >= 1
    ensures Recency(MakeRoom(loaded, max)) == if |loaded| < max then Recency(loaded) else Recency(loaded)[..max - 1]
    decreases |loaded|
  {
    hide MakeRoom, Recency;
    MakeRoomOnce(loaded, max);
    if |loaded| >= max {
      var rest, x := RemoveAt(loaded, LruIndex(loaded)), loaded[LruIndex(loaded)];
      RecencyOnce(loaded);
      EvictionCutsTheEnd(rest, max);
      assert |rest| >= max ==> (Recency(rest) + [x])[..max - 1] == Recency(rest)[..max - 1];
      assert |rest| == max - 1 ==> (Recency(rest) + [x])[..max - 1] == Recency(rest);
    }
  }

  lemma RecencyOnce<B>(loaded: seq<Entry<B>>)
    requires loaded != []
    ensures Recency(loaded) == Recency(RemoveAt(loaded, LruIndex(loaded))) + [loaded[LruIndex(loaded)]]
  {
  }

  lemma MakeRoomOnce<B>(loaded: seq<Entry<B>>, max: nat)
    requires max >= 1
    ensures |loaded| < max ==> MakeRoom(loaded, max) == loaded
    ensures |loaded| >= max ==> MakeRoom(loaded, max) == MakeRoom(RemoveAt(loaded, LruIndex(loaded)), max)
  {
  }

  // ---------------------------------------------------------------- keys

  predicate KeyIn<B>(s: seq<Entry<B>>, key: string) {
    exists i :: 0 <= i < |s| && s[i].key == key
  }

  lemma KeyInAppend<B>(a: seq<Entry<B>>, b: seq<Entry<B>>, key: string)
    ensures KeyIn(a + b, key) <==> KeyIn(a, key) || KeyIn(b, key)
  {
    if i :| 0 <= i < |a| && a[i].key == key {
      assert (a + b)[i].key == key;
    }
    if i :| 0 <= i < |b| && b[i].key == key {
      assert (a + b)[|a| + i].key == key;
    }
  }

  lemma {:induction false} RecencyKeys<B>(loaded: seq<Entry<B>>, key: string)
    ensures KeyIn(Recency(loaded), key) <==> KeyIn(loaded, key)
    decreases |loaded|
  {
    if loaded != [] {
      hide Recency, KeyIn;
      var a, x, b := LruSplit(loaded);
      RecencyKeys(a + b, key);
      KeyInAppend(a + [x], b, key);
      KeyInAppend(a, [x], key);
      KeyInAppend(a, b, key);
      KeyInAppend(Recency(a + b), [x], key);
    }
  }

  lemma ItemsHaveKeys<B>(r: seq<Entry<B>>, key: string)
    ensures HasKey(Items(r), key) <==> KeyIn(r, key)
  {
    var items := Items(r);
    if i :| 0 <= i < |r| && r[i].key == key {
      assert items[i].key == key;
    }
  }

  lemma IndexOfKey<B>(loaded: seq<Entry<B>>, key: string)
    ensures IndexOf(loaded, key) >= 0 <==> KeyIn(loaded, key)
  {
    var i := IndexOf(loaded, key);
    assert i >= 0 ==> loaded[i].key == key;
  }

  /** With distinct keys, taking one entry out is keeping all other keys. */
  lemma RemoveIsExcept<B>(loaded: seq<Entry<B>>, i: nat)
    requires DistinctKeys(loaded) && i < |loaded|
    ensures loaded[..i] + loaded[i + 1..] == KeepBy(loaded, Except(loaded[i].key))
  {
    hide KeepBy;
    var a, x, b := loaded[..i], loaded[i], loaded[i + 1..];
    assert loaded == a + [x] + b;
    KeepAround(a, x, b, Except(x.key));
    assert KeepBy(a, Except(x.key)) + [] == KeepBy(a, Except(x.key));
    KeepAll(a, Except(x.key));
    KeepAll(b, Except(x.key));
  }

  lemma {:induction false} KeepAll<B>(s: seq<Entry<B>>, keep: string -> bool)
    requires forall i :: 0 <= i < |s| ==> keep(s[i].key)
    ensures KeepBy(s, keep) == s
  {
    if s != [] {
      KeepAll(s[1..], keep);
    }
  }

  // ---------------------------------------------------------------- runs

  datatype Op<!B> =
    | Add(key: string, binding: B, max: nat)
    | Use(key: string)
    | Clean(ttl: int, stale: B -> bool)
    | Look

  datatype Sim<B> = Sim(scope: Scope<B>, now: nat)

  predicate OpOk<B>(op: Op<B>) {
    op.Add? ==> op.max >= 1
  }

  function PoolStep<B>(s: Sim<B>, op: Op<B>, clock: Readings): Sim<B> {
    match op
    case Add(key, binding, max) =>
      var step := Added(s.scope, key, binding, max, clock, s.now);
      Sim(step.scope, step.now)
    case Use(key) =>
      var step := Got(s.scope, key, clock, s.now);
      Sim(step.scope, step.now)
    case Clean(ttl, stale) =>
      Sim(s.scope.(loaded := Cleaned(s.scope.loaded, ttl, stale, clock, s.now)),
          s.now + CleanupReads(|s.scope.loaded|, ttl))
    case Look => Sim(s.scope.(lastActive := clock(s.now)), s.now + 1)
  }

  function Among<B>(loaded: seq<Entry<B>>): string -> bool {
    key => KeyIn(loaded, key)
  }

  /** The list's step; a cleanup keeps, in their order, the tools the pool keeps. */
  function ListStep<B>(list: seq<Item<B>>, op: Op<B>, after: seq<Entry<B>>): seq<Item<B>>
    requires OpOk(op)
  {
    match op
    case Add(key, binding, max) => ListAdd(list, key, binding, max)
    case Use(key) => ListUse(list, key)
    case Clean(_, _) => ListKeep(list, Among(after))
    case Look => list
  }

  /** No key is loaded twice; no stamp is newer than a reading to come; and beyond the next
      reading all are newer than every stamp, the first tool's aside. Two tools cannot be there
      before eight readings were taken. */
  ghost predicate PoolOk<B>(s: Sim<B>, clock: Readings) {
    && DistinctKeys(s.scope.loaded)
    && (s.scope.loaded != [] ==> s.now >= 5) && (|s.scope.loaded| >= 2 ==> s.now >= 8)
    && (forall k: nat :: k >= s.now ==> NoneNewer(s.scope.loaded, clock(k)))
    && (forall k: nat :: k > s.now ==> TailOlder(s.scope.loaded, clock(k)))
  }

  /** A clock that goes on by a second with each reading neither goes back nor stalls. */
  lemma SteadyClock()
    ensures NonDecreasing(i => i as real) && NeverStalls(i => i as real)
  {
  }

  lemma ReadingsGrow(clock: Readings, i: nat, j: nat)
    requires NonDecreasing(clock) && NeverStalls(clock) && 7 <= i && i + 2 <= j
    ensures clock(i) < clock(j)
  {
    var next := i + 2;
    assert clock(i) < clock(next) <= clock(j);
  }

  /** The tools of a pool, most recently used first. */
  function RecentTools<B>(loaded: seq<Entry<B>>): seq<Item<B>> {
    Items(Recency(loaded))
  }

  ghost function ListOf<B>(s: Sim<B>): seq<Item<B>> {
    RecentTools(s.scope.loaded)
  }

  lemma TouchRefines<B>(loaded: seq<Entry<B>>, key: string, touched: Entry<B>)
    requires DistinctKeys(loaded) && IndexOf(loaded, key) >= 0
    requires touched.key == key && NoneNewer(loaded, touched.lastUsed) && TailOlder(loaded, touched.lastUsed)
    ensures var loaded' := loaded[IndexOf(loaded, key) := touched];
      && RecentTools(loaded') == [Item(key, touched.binding)] + ListKeep(RecentTools(loaded), Except(key))
      && HasKey(RecentTools(loaded), key)
      && DistinctKeys(loaded')
  {
    hide Recency, KeepBy, ListKeep;
    var i := IndexOf(loaded, key);
    var a, b := loaded[..i], loaded[i + 1..];
    assert loaded[i := touched] == a + [touched] + b;
    NewestIsFirst(a, touched, b);
    RemoveIsExcept(loaded, i);
    RecencyKeeps(loaded, Except(key));
    ItemsKeep(Recency(loaded), Except(key));
    assert Items([touched] + Recency(a + b)) == [Item(key, touched.binding)] + RecentTools(a + b);
    IndexOfKey(loaded, key);
    RecencyKeys(loaded, key);
    ItemsHaveKeys(Recency(loaded), key);
  }

  /** The binding the list has for a key is the pool's. */
  lemma {:induction false} BindingRefines<B>(loaded: seq<Entry<B>>, key: string)
    requires DistinctKeys(loaded) && IndexOf(loaded, key) >= 0
    ensures HasKey(RecentTools(loaded), key)
    ensures BindingOf(RecentTools(loaded), key) == loaded[IndexOf(loaded, key)].binding
  {
    var i := IndexOf(loaded, key);
    IndexOfKey(loaded, key);
    RecencyKeys(loaded, key);
    ItemsHaveKeys(Recency(loaded), key);
    RecencyMember(loaded, i);
    var j :| 0 <= j < |loaded| && Recency(loaded)[j] == loaded[i];
    RecencyDistinct(loaded);
    FindBinding(RecentTools(loaded), key, j);
  }

  lemma {:induction false} FindBinding<B>(list: seq<Item<B>>, key: string, j: nat)
    requires j < |list| && list[j].key == key && forall k :: 0 <= k < j ==> list[k].key != key
    ensures HasKey(list, key) && BindingOf(list, key) == list[j].binding
  {
    if j > 0 {
      FindBinding(list[1..], key, j - 1);
    }
  }

  lemma {:induction false} RecencyMember<B>(loaded: seq<Entry<B>>, i: nat)
    requires i < |loaded|
    ensures exists j :: 0 <= j < |loaded| && Recency(loaded)[j] == loaded[i]
    decreases |loaded|
  {
    var lru := LruIndex(loaded);
    var r := Recency(loaded);
    if i == lru {
      assert r[|r| - 1] == loaded[i];
    } else {
      var rest := RemoveAt(loaded, lru);
      var i' := if i < lru then i else i - 1;
      assert rest[i'] == loaded[i];
      RecencyMember(rest, i');
      var j :| 0 <= j < |rest| && Recency(rest)[j] == rest[i'];
      assert r[j] == loaded[i];
    }
  }

  lemma {:induction false} RecencyDistinct<B>(loaded: seq<Entry<B>>)
    requires DistinctKeys(loaded)
    ensures DistinctKeys(Recency(loaded))
    decreases |loaded|
  {
    if loaded != [] {
      hide Recency, DistinctKeys, KeyIn;
      var a, x, b := LruSplit(loaded);
      DistinctMiddle(a, x, b);
      RecencyDistinct(a + b);
      RecencyKeys(a + b, x.key);
      DistinctAppend(Recency(a + b), x);
    }
  }

  lemma DistinctMiddle<B>(a: seq<Entry<B>>, x: Entry<B>, b: seq<Entry<B>>)
    requires DistinctKeys(a + [x] + b)
    ensures DistinctKeys(a + b) && !KeyIn(a + b, x.key)
  {
    var s := a + [x] + b;
    assert s[|a|] == x;
    assert forall i :: 0 <= i < |a + b| ==> (a + b)[i] == s[if i < |a| then i else i + 1];
  }

  lemma DistinctAppend<B>(s: seq<Entry<B>>, x: Entry<B>)
    requires DistinctKeys(s) && !KeyIn(s, x.key)
    ensures DistinctKeys(s + [x])
  {
  }

  lemma NewRefines<B>(loaded: seq<Entry<B>>, max: nat, entry: Entry<B>)
    requires DistinctKeys(loaded) && max >= 1 && IndexOf(loaded, entry.key) < 0 && NoneNewer(loaded, entry.lastUsed)
    ensures var loaded' := MakeRoom(loaded, max) + [entry];
      && RecentTools(loaded') == ListAdd(RecentTools(loaded), entry.key, entry.binding, max)
      && DistinctKeys(loaded')
  {
    hide Recency, MakeRoom, KeyIn, HasKey, DistinctKeys, NoneNewer, TailOlder;
    var room := MakeRoom(loaded, max);
    MakeRoomKeeps(loaded, max, entry.key, entry.lastUsed);
    NewIsDistinct(room, entry);
    EvictionCutsTheEnd(loaded, max);
    NewestIsFirst(room, entry, []);
    assert room + [entry] + [] == room + [entry] && room + [] == room;
    IndexOfKey(loaded, entry.key);
    RecencyKeys(loaded, entry.key);
    ItemsHaveKeys(Recency(loaded), entry.key);
    ItemsCons(entry, Recency(room));
    if |loaded| >= max {
      assert Items(Recency(loaded)[..max - 1]) == RecentTools(loaded)[..max - 1];
    }
  }

  lemma NewIsDistinct<B>(s: seq<Entry<B>>, x: Entry<B>)
    requires DistinctKeys(s) && forall i :: 0 <= i < |s| ==> s[i].key != x.key
    ensures DistinctKeys(s + [x])
  {
  }

  lemma ItemsCons<B>(e: Entry<B>, r: seq<Entry<B>>)
    ensures Items([e] + r) == [Item(e.key, e.binding)] + Items(r)
  {
    assert ([e] + r)[1..] == r;
  }

  /** A touch at this moment. */
  lemma TouchedIsOk<B>(s: Sim<B>, i: nat, touched: Entry<B>, clock: Readings)
    requires NonDecreasing(clock) && NeverStalls(clock) && PoolOk(s, clock) && i < |s.scope.loaded|
    requires touched.key == s.scope.loaded[i].key && touched.lastUsed == clock(s.now + 1)
    ensures PoolOk(Sim(s.scope.(loaded := s.scope.loaded[i := touched]), s.now + 2), clock)
  {
    forall k: nat | k > s.now + 2
      ensures i >= 1 ==> touched.lastUsed < clock(k)
    {
      if i >= 1 {
        ReadingsGrow(clock, s.now + 1, k);
      }
    }
  }

  lemma NewIsOk<B>(s: Sim<B>, max: nat, entry: Entry<B>, clock: Readings)
    requires NonDecreasing(clock) && NeverStalls(clock) && PoolOk(s, clock) && s.now >= 2
    requires IndexOf(s.scope.loaded, entry.key) < 0 && entry.lastUsed == clock(s.now + 2)
    requires DistinctKeys(MakeRoom(s.scope.loaded, max) + [entry])
    ensures PoolOk(Sim(s.scope.(loaded := MakeRoom(s.scope.loaded, max) + [entry]), s.now + 3), clock)
  {
    hide MakeRoom, DistinctKeys;
    var loaded := s.scope.loaded;
    var room := MakeRoom(loaded, max);
    MakeRoomShrinks(loaded, max);
    forall k: nat | k >= s.now + 3
      ensures NoneNewer(room + [entry], clock(k))
    {
      MakeRoomKeeps(loaded, max, entry.key, clock(k));
    }
    forall k: nat | k > s.now + 3
      ensures TailOlder(room + [entry], clock(k))
    {
      MakeRoomKeeps(loaded, max, entry.key, clock(k));
      if room != [] {
        ReadingsGrow(clock, s.now + 2, k);
      }
    }
  }

  lemma {:induction false} MakeRoomShrinks<B>(loaded: seq<Entry<B>>, max: int)
    ensures |MakeRoom(loaded, max)| <= |loaded|
    decreases |loaded|
  {
    if |loaded| >= max && loaded != [] {
      MakeRoomShrinks(RemoveAt(loaded, LruIndex(loaded)), max);
    }
  }

  lemma AddRefines<B>(s: Sim<B>, key: string, binding: B, max: nat, clock: Readings)
    requires NonDecreasing(clock) && NeverStalls(clock) && PoolOk(s, clock) && s.now >= 2 && max >= 1
    ensures var t := PoolStep(s, Add(key, binding, max), clock);
            PoolOk(t, clock) && ListOf(t) == ListAdd(ListOf(s), key, binding, max)
  {
    hide Recency, MakeRoom, ListKeep, HasKey;
    var loaded := s.scope.loaded;
    var i := IndexOf(loaded, key);
    if i >= 0 {
      var touched := loaded[i].(binding := binding, lastUsed := clock(s.now + 1));
      TouchRefines(loaded, key, touched);
      TouchedIsOk(s, i, touched, clock);
    } else {
      var entry := Entry(key, binding, clock(s.now + 1), clock(s.now + 2));
      NewRefines(loaded, max, entry);
      NewIsOk(s, max, entry, clock);
    }
  }

  lemma {:induction false} MakeRoomKeeps<B>(loaded: seq<Entry<B>>, max: int, key: string, t: real)
    requires DistinctKeys(loaded)
    ensures var room := MakeRoom(loaded, max);
      && DistinctKeys(room)
      && (IndexOf(loaded, key) < 0 ==> forall i :: 0 <= i < |room| ==> room[i].key != key)
      && (NoneNewer(loaded, t) ==> NoneNewer(room, t)) && (TailOlder(loaded, t) ==> TailOlder(room, t))
    decreases |loaded|
  {
    hide DistinctKeys, NoneNewer, TailOlder, RemoveAt, LruIndex;
    if |loaded| >= max && loaded != [] {
      var lru := LruIndex(loaded);
      RemovalKeeps(loaded, lru, key, t);
      MakeRoomKeeps(RemoveAt(loaded, lru), max, key, t);
    }
  }

  lemma RemovalKeeps<B>(loaded: seq<Entry<B>>, i: nat, key: string, t: real)
    requires i < |loaded|
    ensures var rest := RemoveAt(loaded, i);
      && (DistinctKeys(loaded) ==> DistinctKeys(rest)) && (IndexOf(loaded, key) < 0 ==> IndexOf(rest, key) < 0)
      && (NoneNewer(loaded, t) ==> NoneNewer(rest, t)) && (TailOlder(loaded, t) ==> TailOlder(rest, t))
  {
    hide IndexOf;
    var rest := RemoveAt(loaded, i);
    assert forall k :: 0 <= k < |rest| ==> rest[k] == loaded[if k < i then k else k + 1];
  }

  lemma UseRefines<B>(s: Sim<B>, key: string, clock: Readings)
    requires NonDecreasing(clock) && NeverStalls(clock) && PoolOk(s, clock)
    ensures var t := PoolStep(s, Use(key), clock);
            PoolOk(t, clock) && ListOf(t) == ListUse(ListOf(s), key)
  {
    hide Recency, ListKeep, BindingOf;
    var loaded := s.scope.loaded;
    var i := IndexOf(loaded, key);
    if i >= 0 {
      TouchRefines(loaded, key, loaded[i].(lastUsed := clock(s.now + 1)));
      TouchedIsOk(s, i, loaded[i].(lastUsed := clock(s.now + 1)), clock);
      BindingRefines(loaded, key);
    } else {
      IndexOfKey(loaded, key);
      RecencyKeys(loaded, key);
      ItemsHaveKeys(Recency(loaded), key);
    }
  }

  /** Exactly the tools used recently enough, and not stale, survive a cleanup. */
  lemma {:induction false} CleanedMeans<B>(loaded: seq<Entry<B>>, ttl: int, stale: B -> bool, clock: Readings, now: nat)
    requires DistinctKeys(loaded)
    ensures forall i :: 0 <= i < |loaded| ==>
      (KeyIn(Cleaned(loaded, ttl, stale, clock, now), loaded[i].key) <==> Stays(loaded[i], ttl, stale, clock(now + i)))
    ensures forall key :: KeyIn(Cleaned(loaded, ttl, stale, clock, now), key) ==> KeyIn(loaded, key)
  {
    hide Stays, KeyIn;
    if loaded == [] {
      NoKeys(loaded);
    } else {
      var before, last := loaded[..|loaded| - 1], loaded[|loaded| - 1];
      CleanedMeans(before, ttl, stale, clock, now);
      assert loaded == before + [last];
      var kept := Cleaned(before, ttl, stale, clock, now);
      var more := if Stays(last, ttl, stale, clock(now + |loaded| - 1)) then [last] else [];
      KeyOfOne(last);
      NoKeys<B>([]);
      LastKeyIsNew(before, last);
      forall key
        ensures KeyIn(kept + more, key) <==> KeyIn(kept, key) || KeyIn(more, key)
        ensures KeyIn(loaded, key) <==> KeyIn(before, key) || key == last.key
      {
        KeyInAppend(kept, more, key);
        KeyInAppend(before, [last], key);
      }
    }
  }

  lemma NoKeys<B>(s: seq<Entry<B>>)
    requires s == []
    ensures forall key :: !KeyIn(s, key)
  {
  }

  lemma KeyOfOne<B>(e: Entry<B>)
    ensures forall key :: KeyIn([e], key) <==> key == e.key
  {
    assert [e][0] == e;
  }

  lemma LastKeyIsNew<B>(before: seq<Entry<B>>, last: Entry<B>)
    requires DistinctKeys(before + [last])
    ensures DistinctKeys(before) && !KeyIn(before, last.key)
    ensures forall i :: 0 <= i < |before| ==> before[i].key != last.key
  {
    assert forall i :: 0 <= i < |before| ==> (before + [last])[i] == before[i];
    assert (before + [last])[|before|] == last;
  }

  lemma {:induction false} CleanedIsKeep<B>(loaded: seq<Entry<B>>, ttl: int, stale: B -> bool, clock: Readings,
                                            now: nat, keep: string -> bool)
    requires forall i :: 0 <= i < |loaded| ==> (keep(loaded[i].key) <==> Stays(loaded[i], ttl, stale, clock(now + i)))
    ensures Cleaned(loaded, ttl, stale, clock, now) == KeepBy(loaded, keep)
  {
    hide Stays;
    if loaded != [] {
      var before, last := loaded[..|loaded| - 1], loaded[|loaded| - 1];
      CleanedIsKeep(before, ttl, stale, clock, now, keep);
      assert loaded == before + [last];
      KeepByAppend(before, [last], keep);
      KeepByOne(last, keep);
    }
  }

  lemma CleanRefines<B>(s: Sim<B>, ttl: int, stale: B -> bool, clock: Readings)
    requires PoolOk(s, clock)
    ensures var t := PoolStep(s, Clean(ttl, stale), clock);
            PoolOk(t, clock) && ListOf(t) == ListKeep(ListOf(s), Among(t.scope.loaded))
  {
    hide Recency, KeepBy, ListKeep, Stays, KeyIn, Cleaned;
    var loaded := s.scope.loaded;
    var kept := Cleaned(loaded, ttl, stale, clock, s.now);
    CleanedMeans(loaded, ttl, stale, clock, s.now);
    CleanedIsKeep(loaded, ttl, stale, clock, s.now, Among(kept));
    RecencyKeeps(loaded, Among(kept));
    ItemsKeep(Recency(loaded), Among(kept));
    KeptIsOk(s, Among(kept), clock);
  }

  /** Taking tools out of a pool. */
  lemma KeptIsOk<B>(s: Sim<B>, keep: string -> bool, clock: Readings)
    requires PoolOk(s, clock)
    ensures PoolOk(s.(scope := s.scope.(loaded := KeepBy(s.scope.loaded, keep))), clock)
  {
    hide KeepBy;
    var loaded := s.scope.loaded;
    KeepByDistinct(loaded, keep);
    KeepByOlder(loaded, keep, clock(s.now));
    forall k: nat
      ensures NoneNewer(loaded, clock(k)) ==> NoneNewer(KeepBy(loaded, keep), clock(k))
      ensures TailOlder(loaded, clock(k)) ==> TailOlder(KeepBy(loaded, keep), clock(k))
    {
      KeepByOlder(loaded, keep, clock(k));
    }
  }

  lemma {:induction false} KeepByOlder<B>(s: seq<Entry<B>>, keep: string -> bool, t: real)
    ensures NoneNewer(s, t) ==> NoneNewer(KeepBy(s, keep), t)
    ensures AllOlder(s, t) ==> AllOlder(KeepBy(s, keep), t)
    ensures TailOlder(s, t) ==> TailOlder(KeepBy(s, keep), t)
    ensures |KeepBy(s, keep)| <= |s|
  {
    if s != [] {
      KeepByOlder(s[1..], keep, t);
    }
  }

  lemma {:induction false} KeepByDistinct<B>(s: seq<Entry<B>>, keep: string -> bool)
    requires DistinctKeys(s)
    ensures DistinctKeys(KeepBy(s, keep))
    ensures forall key :: KeyIn(KeepBy(s, keep), key) ==> KeyIn(s, key)
  {
    if s == [] {
      NoKeys(s);
    } else {
      KeepByDistinct(s[1..], keep);
      hide KeyIn, DistinctKeys;
      var rest := KeepBy(s[1..], keep);
      FirstKeyIsNew(s);
      assert s == [s[0]] + s[1..];
      KeyOfOne(s[0]);
      forall key
        ensures KeyIn(s, key) <==> key == s[0].key || KeyIn(s[1..], key)
        ensures KeyIn([s[0]] + rest, key) <==> key == s[0].key || KeyIn(rest, key)
      {
        KeyInAppend([s[0]], s[1..], key);
        KeyInAppend([s[0]], rest, key);
      }
      DistinctPrepend(s[0], rest);
    }
  }

  lemma FirstKeyIsNew<B>(s: seq<Entry<B>>)
    requires DistinctKeys(s) && s != []
    ensures DistinctKeys(s[1..]) && !KeyIn(s[1..], s[0].key)
  {
  }

  lemma DistinctPrepend<B>(x: Entry<B>, s: seq<Entry<B>>)
    requires DistinctKeys(s) && !KeyIn(s, x.key)
    ensures DistinctKeys([x] + s)
  {
    var all := [x] + s;
    forall i, j | 0 <= i < j < |all|
      ensures all[i].key != all[j].key
    {
      assert all[j] == s[j - 1] && (i > 0 ==> all[i] == s[i - 1]);
    }
  }

  /** One step of the pool is one step of the list. */
  lemma StepRefines<B>(s: Sim<B>, op: Op<B>, clock: Readings)
    requires NonDecreasing(clock) && NeverStalls(clock) && PoolOk(s, clock) && s.now >= 2 && OpOk(op)
    ensures PoolStep(s, op, clock).now >= 2
    ensures var t := PoolStep(s, op, clock);
            PoolOk(t, clock) && ListOf(t) == ListStep(ListOf(s), op, t.scope.loaded)
  {
    match op
    case Add(key, binding, max) => AddRefines(s, key, binding, max, clock);
    case Use(key) => UseRefines(s, key, clock);
    case Clean(ttl, stale) => CleanRefines(s, ttl, stale, clock);
    case Look =>
  }

  function PoolRun<B>(ops: seq<Op<B>>, clock: Readings): Sim<B> {
    if |ops| == 0 then Sim(Scope(clock(0), clock(1), []), 2)
    else PoolStep(PoolRun(ops[..|ops| - 1], clock), ops[|ops| - 1], clock)
  }

  predicate OpsOk<B>(ops: seq<Op<B>>) {
    forall i :: 0 <= i < |ops| ==> OpOk(ops[i])
  }

  function ListRun<B>(ops: seq<Op<B>>, clock: Readings): seq<Item<B>>
    requires OpsOk(ops)
  {
    if |ops| == 0 then []
    else ListStep(ListRun(ops[..|ops| - 1], clock), ops[|ops| - 1], PoolRun(ops, clock).scope.loaded)
  }

  /** Under a clock that never stalls, any run of a pool is the same run of the list: the list is
      the pool's tools in reverse order of eviction. */
  lemma {:induction false} RunRefines<B>(ops: seq<Op<B>>, clock: Readings)
    requires NonDecreasing(clock) && NeverStalls(clock) && OpsOk(ops)
    ensures PoolRun(ops, clock).now >= 2
    ensures PoolOk(PoolRun(ops, clock), clock) && ListOf(PoolRun(ops, clock)) == ListRun(ops, clock)
  {
    hide PoolStep, ListStep;
    if ops != [] {
      RunRefines(ops[..|ops| - 1], clock);
      StepRefines(PoolRun(ops[..|ops| - 1], clock), ops[|ops| - 1], clock);
    }
  }

  lemma StepHoldsCapacity<B>(s: Sim<B>, op: Op<B>, clock: Readings, max: nat)
    requires max >= 1 && |s.scope.loaded| <= max && (op.Add? ==> op.max == max)
    ensures |PoolStep(s, op, clock).scope.loaded| <= max
  {
    hide MakeRoom, Cleaned, IndexOf;
  }

  /** Whatever the clock, a pool whose capacity stays the same never holds more than it. */
  lemma {:induction false} CapacityHolds<B>(ops: seq<Op<B>>, clock: Readings, max: nat)
    requires max >= 1 && forall i :: 0 <= i < |ops| && ops[i].Add? ==> ops[i].max == max
    ensures |PoolRun(ops, clock).scope.loaded| <= max
  {
    hide PoolStep;
    if ops != [] {
      CapacityHolds(ops[..|ops| - 1], clock, max);
      StepHoldsCapacity(PoolRun(ops[..|ops| - 1], clock), ops[|ops| - 1], clock, max);
    }
  }

  // ---------------------------------------------------------------- a clock that stalls

  function Looks<B(!new)>(n: nat): (ops: seq<Op<B>>)
    ensures |ops| == n
  {
    if n == 0 then [] else Looks(n - 1) + [Look]
  }

  lemma RunNext<B>(ops: seq<Op<B>>, op: Op<B>, clock: Readings)
    requires OpsOk(ops) && OpOk(op)
    ensures OpsOk(ops + [op])
    ensures PoolRun(ops + [op], clock) == PoolStep(PoolRun(ops, clock), op, clock)
    ensures ListRun(ops + [op], clock) == ListStep(ListRun(ops, clock), op, PoolRun(ops + [op], clock).scope.loaded)
  {
    assert (ops + [op])[..|ops|] == ops;
  }

  lemma {:induction false} LooksRun<B(!new)>(n: nat, clock: Readings)
    ensures OpsOk(Looks<B>(n)) && ListRun(Looks<B>(n), clock) == []
    ensures PoolRun(Looks<B>(n), clock).now == n + 2 && PoolRun(Looks<B>(n), clock).scope.loaded == []
  {
    if n > 0 {
      LooksRun<B>(n - 1, clock);
      RunNext(Looks<B>(n - 1), Look, clock);
    }
  }

  /** Load two tools, use the first, load a third into a pool for two, all of it late enough for
      the stamps of the second and of the use to be the readings `i` and `i + 2`. */
  function StalledRun<B(!new)>(i: nat, binding: B): seq<Op<B>>
    requires i >= 7
  {
    Looks(i - 7) + [Add("a", binding, 2)] + [Add("b", binding, 2)] + [Use("a")] + [Add("c", binding, 2)]
  }

  /** If the reading `i` is the same as the second one after it, the tool just used is evicted and
      an older one stays; the list keeps the one just used. */
  lemma StallEvictsTheUsed<B(!new)>(clock: Readings, i: nat, binding: B)
    requires i >= 7 && clock(i) == clock(i + 2)
    ensures var ops := StalledRun(i, binding);
      && OpsOk(ops)
      && !KeyIn(PoolRun(ops, clock).scope.loaded, "a") && KeyIn(PoolRun(ops, clock).scope.loaded, "b")
      && HasKey(ListRun(ops, clock), "a") && !HasKey(ListRun(ops, clock), "b")
  {
    hide PoolRun, ListRun, ListOf, OpsOk;
    var looks := Looks<B>(i - 7);
    LooksRun<B>(i - 7, clock);
    var ops1 := looks + [Add("a", binding, 2)];
    RunNext(looks, Add("a", binding, 2), clock);
    FirstAdded(PoolRun(looks, clock), binding, clock);
    var ops2 := ops1 + [Add("b", binding, 2)];
    RunNext(ops1, Add("b", binding, 2), clock);
    SecondAdded(PoolRun(ops1, clock), binding, clock);
    var ops3 := ops2 + [Use("a")];
    RunNext(ops2, Use("a"), clock);
    FirstUsed(PoolRun(ops2, clock), clock);
    RunNext(ops3, Add("c", binding, 2), clock);
    ThirdAdded(PoolRun(ops3, clock), binding, clock);
    ListStalls(binding);
  }

  lemma FirstAdded<B>(s: Sim<B>, binding: B, clock: Readings)
    requires s.scope.loaded == []
    ensures var t := PoolStep(s, Add("a", binding, 2), clock);
            t.now == s.now + 3 && t.scope.loaded == [Entry("a", binding, clock(s.now + 1), clock(s.now + 2))]
  {
    assert MakeRoom(s.scope.loaded, 2) == [] && IndexOf(s.scope.loaded, "a") == -1;
  }

  lemma SecondAdded<B>(s: Sim<B>, binding: B, clock: Readings)
    requires |s.scope.loaded| == 1 && s.scope.loaded[0].key == "a"
    ensures var t := PoolStep(s, Add("b", binding, 2), clock);
            t.now == s.now + 3
              && t.scope.loaded == s.scope.loaded + [Entry("b", binding, clock(s.now + 1), clock(s.now + 2))]
  {
    assert MakeRoom(s.scope.loaded, 2) == s.scope.loaded && IndexOf(s.scope.loaded, "b") == -1;
  }

  lemma FirstUsed<B>(s: Sim<B>, clock: Readings)
    requires |s.scope.loaded| == 2 && s.scope.loaded[0].key == "a" && s.scope.loaded[1].key == "b"
    ensures var t := PoolStep(s, Use("a"), clock);
            t.now == s.now + 2
              && t.scope.loaded == s.scope.loaded[0 := s.scope.loaded[0].(lastUsed := clock(s.now + 1))]
  {
    assert IndexOf(s.scope.loaded, "a") == 0;
  }

  lemma ThirdAdded<B>(s: Sim<B>, binding: B, clock: Readings)
    requires |s.scope.loaded| == 2 && s.scope.loaded[0].key == "a" && s.scope.loaded[1].key == "b"
    requires s.scope.loaded[0].lastUsed == s.scope.loaded[1].lastUsed
    ensures var t := PoolStep(s, Add("c", binding, 2), clock);
      !KeyIn(t.scope.loaded, "a") && KeyIn(t.scope.loaded, "b")
  {
    var loaded := s.scope.loaded;
    assert LruIndex(loaded) == 0 && RemoveAt(loaded, 0) == [loaded[1]];
    assert MakeRoom([loaded[1]], 2) == [loaded[1]] && MakeRoom(loaded, 2) == [loaded[1]];
    assert IndexOf(loaded, "c") == -1;
    var t := PoolStep(s, Add("c", binding, 2), clock);
    assert t.scope.loaded == [loaded[1], Entry("c", binding, clock(s.now + 1), clock(s.now + 2))];
    assert t.scope.loaded[0].key == "b";
  }

  lemma ListStalls<B>(binding: B)
    ensures var list := ListUse(ListAdd(ListAdd([], "a", binding, 2), "b", binding, 2), "a");
            HasKey(ListAdd(list, "c", binding, 2), "a") && !HasKey(ListAdd(list, "c", binding, 2), "b")
  {
    var a, b := Item("a", binding), Item("b", binding);
    assert ListAdd([], "a", binding, 2) == [a];
    assert !HasKey([a], "b") && ListAdd([a], "b", binding, 2) == [b, a];
    assert [b, a][1].key == "a" && [b, a][1..] == [a];
    assert [a][1..] == [] && ListKeep<B>([], Except("a")) == [];
    assert ListKeep([a], Except("a")) == [];
    assert ListKeep([b, a], Except("a")) == [b] + ListKeep([a], Except("a"));
    assert BindingOf([a], "a") == binding && ListUse([b, a], "a") == [a, b];
    assert !HasKey([a, b], "c") && [a, b][..1] == [a];
    assert ListAdd([a, b], "c", binding, 2) == [Item("c", binding), a];
    assert [Item("c", binding), a][1].key == "a";
  }

  /** The exact condition: for a clock that never goes back, the pool is the list in every run if
      and only if the clock never stalls. */
  lemma RefinesIff<B(!new)>(clock: Readings, binding: B)
    requires NonDecreasing(clock)
    ensures NeverStalls(clock) <==>
      (forall ops: seq<Op<B>> :: OpsOk(ops) ==> ListOf(PoolRun(ops, clock)) == ListRun(ops, clock))
  {
    hide PoolRun, ListRun, ListOf, OpsOk;
    if NeverStalls(clock) {
      forall ops: seq<Op<B>> | OpsOk(ops)
        ensures ListOf(PoolRun(ops, clock)) == ListRun(ops, clock)
      {
        RunRefines(ops, clock);
      }
    } else {
      var i: nat, j: nat :| 7 <= i && j == i + 2 && !(clock(i) < clock(j));
      assert clock(i) <= clock(j);
      StallEvictsTheUsed(clock, i, binding);
      var ops := StalledRun(i, binding);
      SameKeys(PoolRun(ops, clock), "a");
    }
  }

  lemma SameKeys<B>(s: Sim<B>, key: string)
    ensures HasKey(ListOf(s), key) <==> KeyIn(s.scope.loaded, key)
  {
    RecencyKeys(s.scope.loaded, key);
    ItemsHaveKeys(Recency(s.scope.loaded), key);
  }
}
