/** What one `autoload` leaves loaded.

    On the move-to-front list the place of a tool is the number of different tools used after
    it, so a tool that was just loaded is gone again exactly when the same call went on to load
    as many others as the pool has room for. The source documents what the call returns as the
    references that were actually loaded; it also returns early ones that are gone again. */
module LruAutoload {
  import opened FiniteSets
  import opened ToolScope
  import opened LruRefinement

  function ListKeys<B>(list: seq<Item<B>>): set<string> {
    set i | 0 <= i < |list| :: list[i].key
  }

  predicate DistinctItems<B>(list: seq<Item<B>>) {
    forall i, j :: 0 <= i < j < |list| ==> list[i].key != list[j].key
  }

  /** The items loaded one after the other, the last one last. */
  function ListAddAll<B>(list: seq<Item<B>>, items: seq<Item<B>>, max: nat): seq<Item<B>>
    requires max >= 1
  {
    if |items| == 0 then list
    else
      var last := items[|items| - 1];
      ListAdd(ListAddAll(list, items[..|items| - 1], max), last.key, last.binding, max)
  }

  lemma KeysAppend<B>(a: seq<Item<B>>, b: seq<Item<B>>)
    ensures ListKeys(a + b) == ListKeys(a) + ListKeys(b)
  {
    assert forall i :: 0 <= i < |a| ==> (a + b)[i] == a[i];
    assert forall i :: 0 <= i < |b| ==> (a + b)[|a| + i] == b[i];
    forall key | key in ListKeys(a) + ListKeys(b)
      ensures key in ListKeys(a + b)
    {
      if key in ListKeys(a) {
        var i :| 0 <= i < |a| && a[i].key == key;
        assert (a + b)[i].key == key;
      } else {
        var i :| 0 <= i < |b| && b[i].key == key;
        assert (a + b)[|a| + i].key == key;
      }
    }
  }

  lemma KeyOfOne<B>(x: Item<B>)
    ensures ListKeys([x]) == {x.key}
  {
    assert [x][0] == x;
  }

  lemma {:induction false} KeyCount<B>(list: seq<Item<B>>)
    requires DistinctItems(list)
    ensures |ListKeys(list)| == |list|
  {
    if list == [] {
      assert ListKeys(list) == {};
    } else {
      var init, last := list[..|list| - 1], list[|list| - 1];
      KeyCount(init);
      KeysAppend(init, [last]);
      KeyOfOne(last);
      assert list == init + [last];
    }
  }

  lemma {:induction false} KeepKeys<B>(list: seq<Item<B>>, key: string)
    requires DistinctItems(list)
    ensures var kept := ListKeep(list, Except(key));
      && DistinctItems(kept) && ListKeys(kept) == ListKeys(list) - {key}
      && |kept| == if key in ListKeys(list) then |list| - 1 else |list|
  {
    if list == [] {
      assert ListKeep(list, Except(key)) == [];
    } else {
      var first, rest := list[0], list[1..];
      KeepKeys(rest, key);
      KeysAppend([first], rest);
      KeyOfOne(first);
      assert list == [first] + rest;
      var kept := ListKeep(rest, Except(key));
      KeysAppend([first], kept);
      assert first.key !in ListKeys(rest);
      if first.key != key {
        PrependDistinct(first, kept);
        assert ListKeep(list, Except(key)) == [first] + kept;
      } else {
        assert ListKeep(list, Except(key)) == kept;
      }
    }
  }

  lemma PrependDistinct<B>(x: Item<B>, list: seq<Item<B>>)
    requires DistinctItems(list) && x.key !in ListKeys(list)
    ensures DistinctItems([x] + list)
  {
    var all := [x] + list;
    forall i, j | 0 <= i < j < |all|
      ensures all[i].key != all[j].key
    {
      assert all[j] == list[j - 1] && (i > 0 ==> all[i] == list[i - 1]);
    }
  }

  lemma {:induction false} KeepAppend<B>(a: seq<Item<B>>, b: seq<Item<B>>, keep: string -> bool)
    ensures ListKeep(a + b, keep) == ListKeep(a, keep) + ListKeep(b, keep)
  {
    if a == [] {
      assert a + b == b;
    } else {
      assert (a + b)[1..] == a[1..] + b;
      KeepAppend(a[1..], b, keep);
    }
  }

  lemma HasKeyIsIn<B>(list: seq<Item<B>>, key: string)
    ensures HasKey(list, key) <==> key in ListKeys(list)
  {
  }

  lemma SublistDistinct<B>(list: seq<Item<B>>, n: nat)
    requires DistinctItems(list) && n <= |list|
    ensures DistinctItems(list[..n]) && ListKeys(list[..n]) <= ListKeys(list)
  {
    forall i | 0 <= i < n
      ensures list[..n][i].key in ListKeys(list)
    {
      assert list[i] == list[..n][i];
    }
  }

  /** A list step keeps keys distinct and the size within the capacity. */
  lemma AddOk<B>(list: seq<Item<B>>, key: string, binding: B, max: nat)
    requires DistinctItems(list) && |list| <= max && max >= 1
    ensures var next := ListAdd(list, key, binding, max);
            DistinctItems(next) && |next| <= max && ListKeys(next) <= ListKeys(list) + {key}
  {
    HasKeyIsIn(list, key);
    var item := Item(key, binding);
    KeepKeys(list, key);
    SublistDistinct(list, if |list| < max then |list| else max - 1);
    assert list[..|list|] == list;
    var rest := if HasKey(list, key) then ListKeep(list, Except(key))
                else if |list| < max then list
                else list[..max - 1];
    PrependDistinct(item, rest);
    KeysAppend([item], rest);
    KeyOfOne(item);
  }

  lemma {:induction false} AddAllOk<B>(list: seq<Item<B>>, items: seq<Item<B>>, max: nat)
    requires DistinctItems(list) && |list| <= max && max >= 1
    ensures var next := ListAddAll(list, items, max);
            DistinctItems(next) && |next| <= max && ListKeys(next) <= ListKeys(list) + ListKeys(items)
  {
    hide ListAdd, DistinctItems, ListKeys;
    if items != [] {
      var init, last := items[..|items| - 1], items[|items| - 1];
      assert items == init + [last];
      KeysAppend(init, [last]);
      KeyOfOne(last);
      AddAllOk(list, init, max);
      AddOk(ListAddAll(list, init, max), last.key, last.binding, max);
    }
  }

  /** `list` has `key` right behind the tools used since. */
  ghost predicate StandsBehind<B(!new)>(list: seq<Item<B>>, key: string, since: set<string>) {
    exists front, x, back :: list == front + [x] + back && x.key == key && ListKeys(front) == since
  }

  lemma StandsBehindHas<B(!new)>(list: seq<Item<B>>, key: string, since: set<string>)
    requires DistinctItems(list) && StandsBehind(list, key, since)
    ensures key in ListKeys(list) && key !in since && |since| < |list|
  {
    var front, x, back :| list == front + [x] + back && x.key == key && ListKeys(front) == since;
    assert list[|front|] == x;
    assert forall i :: 0 <= i < |front| ==> list[i] == front[i];
    KeyCount(front);
  }

  /** Loading another tool moves a tool one place back, unless the other one already stood
      before it; the place behind the last one is out of the list. */
  lemma AnotherMovesBack<B(!new)>(list: seq<Item<B>>, key: string, since: set<string>, other: Item<B>, max: nat)
    requires DistinctItems(list) && |list| <= max && max >= 1 && other.key != key
    requires StandsBehind(list, key, since)
    ensures var next := ListAdd(list, other.key, other.binding, max);
            if |since + {other.key}| < max then StandsBehind(next, key, since + {other.key}) else key !in ListKeys(next)
  {
    hide ListAdd;
    var front, x, back :| list == front + [x] + back && x.key == key && ListKeys(front) == since;
    HasKeyIsIn(list, other.key);
    if HasKey(list, other.key) {
      KnownMovesBack(list, front, x, back, other, max);
      AddOk(list, other.key, other.binding, max);
      StandsBehindHas(ListAdd(list, other.key, other.binding, max), key, since + {other.key});
    } else {
      NewMovesBack(list, front, x, back, other, max);
    }
  }

  lemma KnownMovesBack<B(!new)>(list: seq<Item<B>>, front: seq<Item<B>>, x: Item<B>, back: seq<Item<B>>, other: Item<B>,
                                max: nat)
    requires DistinctItems(list) && max >= 1 && list == front + [x] + back && other.key != x.key
         && HasKey(list, other.key)
    ensures StandsBehind(ListAdd(list, other.key, other.binding, max), x.key, ListKeys(front) + {other.key})
  {
    SublistDistinct(list, |front|);
    assert list[..|front|] == front;
    KeepAround(front, x, back, other.key);
    var front' := ListKeep(front, Except(other.key));
    KeepKeys(front, other.key);
    KeysAppend([other], front');
    KeyOfOne(other);
    var next := ListAdd(list, other.key, other.binding, max);
    assert next == ([other] + front') + [x] + ListKeep(back, Except(other.key));
    assert ListKeys([other] + front') == ListKeys(front) + {other.key};
  }

  lemma NewMovesBack<B(!new)>(list: seq<Item<B>>, front: seq<Item<B>>, x: Item<B>, back: seq<Item<B>>, other: Item<B>,
                              max: nat)
    requires DistinctItems(list) && |list| <= max && max >= 1
    requires list == front + [x] + back && other.key != x.key && !HasKey(list, other.key)
    ensures var next, since := ListAdd(list, other.key, other.binding, max), ListKeys(front) + {other.key};
            if |since| < max then StandsBehind(next, x.key, since) else x.key !in ListKeys(next)
  {
    hide ListKeys, DistinctItems, HasKey, StandsBehind, ListAdd;
    SublistDistinct(list, |front|);
    assert list[..|front|] == front;
    KeyCount(front);
    KeysAppend([other], front);
    KeyOfOne(other);
    NotInFront(front, x, back, other.key);
    assert |ListKeys(front) + {other.key}| == |front| + 1;
    AddBehind(list, front, x, back, other, max);
    assert ListKeys([other] + front) == ListKeys(front) + {other.key};
    if |front| + 1 >= max {
      SolidFront(front, x, back);
    }
  }

  /** A new item in front of a list around one of its items. */
  lemma AddBehind<B(!new)>(list: seq<Item<B>>, front: seq<Item<B>>, x: Item<B>, back: seq<Item<B>>, other: Item<B>,
                           max: nat)
    requires |list| <= max && max >= 1 && list == front + [x] + back && !HasKey(list, other.key)
    ensures |front| + 1 < max ==>
      StandsBehind(ListAdd(list, other.key, other.binding, max), x.key, ListKeys([other] + front))
    ensures |front| + 1 >= max ==> ListAdd(list, other.key, other.binding, max) == [other] + front
  {
    hide ListKeys, HasKey;
    CutBehind(list, front, x, back, max);
    if |front| + 1 < max {
      var back' := if |list| < max then back else back[..max - 2 - |front|];
      assert ListAdd(list, other.key, other.binding, max) == ([other] + front) + [x] + back';
    }
  }

  lemma CutBehind<T>(list: seq<T>, front: seq<T>, x: T, back: seq<T>, max: nat)
    requires list == front + [x] + back && |list| <= max && max >= 1
    ensures |list| == max && |front| + 1 < max ==> list[..max - 1] == front + [x] + back[..max - 2 - |front|]
    ensures |front| + 1 >= max ==> |list| == max && list[..max - 1] == front
  {
  }

  lemma NotInFront<B>(front: seq<Item<B>>, x: Item<B>, back: seq<Item<B>>, key: string)
    requires !HasKey(front + [x] + back, key)
    ensures key !in ListKeys(front)
  {
    assert forall i :: 0 <= i < |front| ==> (front + [x] + back)[i] == front[i];
  }

  lemma SolidFront<B>(front: seq<Item<B>>, x: Item<B>, back: seq<Item<B>>)
    requires DistinctItems(front + [x] + back)
    ensures x.key !in ListKeys(front)
  {
    var list := front + [x] + back;
    assert list[|front|] == x && forall i :: 0 <= i < |front| ==> list[i] == front[i];
  }

  lemma KeepAround<B>(front: seq<Item<B>>, x: Item<B>, back: seq<Item<B>>, key: string)
    requires x.key != key
    ensures ListKeep(front + [x] + back, Except(key))
         == ListKeep(front, Except(key)) + [x] + ListKeep(back, Except(key))
  {
    KeepAppend(front + [x], back, Except(key));
    KeepAppend(front, [x], Except(key));
    assert [x][1..] == [];
    assert ListKeep([x], Except(key)) == [x];
  }

  /** A loaded reference is still loaded at the end of the call exactly when fewer different
      tools were loaded after it than the pool holds. */
  lemma {:induction false} LoadedIff<B(!new)>(list: seq<Item<B>>, items: seq<Item<B>>, i: nat, max: nat)
    requires DistinctItems(list) && |list| <= max && max >= 1 && i < |items|
    requires forall j :: i < j < |items| ==> items[j].key != items[i].key
    ensures var since := ListKeys(items[i + 1..]);
            var end := ListAddAll(list, items, max);
            && (|since| < max ==> StandsBehind(end, items[i].key, since))
            && (items[i].key in ListKeys(end) <==> |since| < max)
    decreases |items|
  {
    hide ListAdd, StandsBehind, ListKeys, DistinctItems;
    var since, end := ListKeys(items[i + 1..]), ListAddAll(list, items, max);
    var init, last := items[..|items| - 1], items[|items| - 1];
    AddAllOk(list, items, max);
    AddAllOk(list, init, max);
    var before := ListAddAll(list, init, max);
    if i == |items| - 1 {
      JustLoaded(before, last, max);
      assert items[i + 1..] == [];
      NoListKeys<B>([]);
    } else {
      LoadedIff(list, init, i, max);
      var since' := ListKeys(init[i + 1..]);
      assert items[i + 1..] == init[i + 1..] + [last];
      KeysAppend(init[i + 1..], [last]);
      KeyOfOne(last);
      SubsetSize(since', since);
      if |since'| < max {
        AnotherMovesBack(before, items[i].key, since', last, max);
      } else {
        AddOk(before, last.key, last.binding, max);
      }
    }
    if |since| < max {
      StandsBehindHas(end, items[i].key, since);
    }
  }

  lemma NoListKeys<B>(list: seq<Item<B>>)
    requires list == []
    ensures ListKeys(list) == {}
  {
  }

  lemma JustLoaded<B(!new)>(list: seq<Item<B>>, item: Item<B>, max: nat)
    requires max >= 1
    ensures StandsBehind(ListAdd(list, item.key, item.binding, max), item.key, {})
  {
    var next := ListAdd(list, item.key, item.binding, max);
    assert next == [] + [next[0]] + next[1..];
    assert ListKeys<B>([]) == {};
  }

  /** One call with at most as many different tools as the pool holds ends with all of them. */
  lemma FewReferencesAllLoaded<B(!new)>(list: seq<Item<B>>, items: seq<Item<B>>, max: nat)
    requires DistinctItems(list) && |list| <= max && max >= 1
    requires |ListKeys(items)| <= max
    ensures ListKeys(items) <= ListKeys(ListAddAll(list, items, max))
  {
    forall key | key in ListKeys(items)
      ensures key in ListKeys(ListAddAll(list, items, max))
    {
      var i := LastOf(items, key);
      var since := ListKeys(items[i + 1..]);
      KeysAppend(items[..i + 1], items[i + 1..]);
      assert items == items[..i + 1] + items[i + 1..];
      assert key !in since;
      SubsetSize(since + {key}, ListKeys(items));
      LoadedIff(list, items, i, max);
    }
  }

  lemma {:induction false} LastOf<B>(items: seq<Item<B>>, key: string) returns (i: nat)
    requires key in ListKeys(items)
    ensures i < |items| && items[i].key == key && forall j :: i < j < |items| ==> items[j].key != key
  {
    if items[|items| - 1].key == key {
      i := |items| - 1;
    } else {
      var init := items[..|items| - 1];
      var k :| 0 <= k < |items| && items[k].key == key;
      assert init[k].key == key;
      i := LastOf(init, key);
    }
  }

  /** The pool loads references as the list does. */
  lemma {:induction false} AddedAllRefines<B>(s: Sim<B>, items: seq<Item<B>>, max: nat, clock: Readings)
    requires NonDecreasing(clock) && NeverStalls(clock) && PoolOk(s, clock) && s.now >= 2 && max >= 1
    ensures var load := AddedAll(s.scope, items, max, clock, s.now);
      && PoolOk(Sim(load.scope, load.now), clock)
      && ListOf(Sim(load.scope, load.now)) == ListAddAll(ListOf(s), items, max)
      && (forall i :: 0 <= i < |items| ==> load.oks[i]) && load.now >= s.now
  {
    hide PoolOk, ListOf, ListAdd, Added;
    if items != [] {
      var init, last := items[..|items| - 1], items[|items| - 1];
      AddedAllRefines(s, init, max, clock);
      var before := AddedAll(s.scope, init, max, clock, s.now);
      OneAdded(Sim(before.scope, before.now), last, max, clock);
    }
  }

  lemma OneAdded<B>(s: Sim<B>, x: Item<B>, max: nat, clock: Readings)
    requires NonDecreasing(clock) && NeverStalls(clock) && PoolOk(s, clock) && s.now >= 2 && max >= 1
    ensures var step := Added(s.scope, x.key, x.binding, max, clock, s.now);
      && step.ok && step.now >= s.now && PoolOk(Sim(step.scope, step.now), clock)
      && ListOf(Sim(step.scope, step.now)) == ListAdd(ListOf(s), x.key, x.binding, max)
  {
    hide PoolOk, ListOf, ListAdd, MakeRoom;
    AddRefines(s, x.key, x.binding, max, clock);
  }

  lemma PoolKeys<B>(s: Sim<B>, clock: Readings)
    requires PoolOk(s, clock)
    ensures DistinctItems(ListOf(s)) && |ListOf(s)| == |s.scope.loaded|
    ensures forall key :: key in ListKeys(ListOf(s)) <==> KeyIn(s.scope.loaded, key)
  {
    hide Recency, KeyIn;
    RecencyDistinct(s.scope.loaded);
    var r := Recency(s.scope.loaded);
    forall key
      ensures key in ListKeys(ListOf(s)) <==> KeyIn(s.scope.loaded, key)
    {
      RecencyKeys(s.scope.loaded, key);
      ItemsHaveKeys(r, key);
      HasKeyIsIn(Items(r), key);
    }
  }

  /** What this means for a pool: a reference of the call is loaded at its end exactly when
      fewer different tools followed it than the pool holds. */
  lemma AutoloadedIff<B(!new)>(s: Sim<B>, items: seq<Item<B>>, i: nat, max: nat, clock: Readings)
    requires NonDecreasing(clock) && NeverStalls(clock) && PoolOk(s, clock) && s.now >= 2
    requires max >= 1 && |s.scope.loaded| <= max && i < |items|
    requires forall j :: i < j < |items| ==> items[j].key != items[i].key
    ensures KeyIn(AddedAll(s.scope, items, max, clock, s.now).scope.loaded, items[i].key)
       <==> |ListKeys(items[i + 1..])| < max
  {
    hide Recency, KeyIn, ListOf;
    AddedAllRefines(s, items, max, clock);
    PoolKeys(s, clock);
    var load := AddedAll(s.scope, items, max, clock, s.now);
    PoolKeys(Sim(load.scope, load.now), clock);
    LoadedIff(ListOf(s), items, i, max);
  }
}
