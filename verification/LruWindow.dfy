/** A pool is a window onto an unbounded list.

    Loading into a pool of any capacity leaves the front of what loading into a move-to-front
    list without a capacity would leave. So the tools that were in the pool before matter only
    behind the ones just loaded, and loading the same tools again changes nothing, unless some
    of those behind them went in between. */
module LruWindow {
  import opened ToolScope
  import opened LruRefinement
  import opened LruAutoload

  /** The items moved to the front one after the other, with no bound on the list. */
  function Moved<B>(list: seq<Item<B>>, items: seq<Item<B>>): seq<Item<B>> {
    if |items| == 0 then list
    else
      var last := items[|items| - 1];
      [last] + ListKeep(Moved(list, items[..|items| - 1]), Except(last.key))
  }

  function Front<T>(s: seq<T>, n: nat): seq<T> {
    if |s| <= n then s else s[..n]
  }

  function NotAmong<B>(items: seq<Item<B>>): string -> bool {
    key => key !in ListKeys(items)
  }

  lemma {:induction false} KeepNone<B>(list: seq<Item<B>>, keep: string -> bool)
    requires forall i :: 0 <= i < |list| ==> !keep(list[i].key)
    ensures ListKeep(list, keep) == []
  {
    if list != [] {
      KeepNone(list[1..], keep);
    }
  }

  lemma {:induction false} KeepAll<B>(list: seq<Item<B>>, keep: string -> bool)
    requires forall i :: 0 <= i < |list| ==> keep(list[i].key)
    ensures ListKeep(list, keep) == list
  {
    if list != [] {
      KeepAll(list[1..], keep);
    }
  }

  lemma {:induction false} KeepBoth<B>(list: seq<Item<B>>, first: string -> bool, second: string -> bool,
                                       both: string -> bool)
    requires forall key :: both(key) <==> first(key) && second(key)
    ensures ListKeep(ListKeep(list, first), second) == ListKeep(list, both)
  {
    if list != [] {
      var x, rest := list[0], list[1..];
      KeepBoth(rest, first, second, both);
      var kept := ListKeep(rest, first);
      assert first(x.key) ==> ([x] + kept)[1..] == kept;
      assert !first(x.key) ==> ListKeep(list, first) == kept;
    }
  }

  /** Adding to the window moves the window's frame along. */
  lemma AddInWindow<B>(list: seq<Item<B>>, x: Item<B>, max: nat)
    requires DistinctItems(list) && max >= 1
    ensures ListAdd(Front(list, max), x.key, x.binding, max) == Front([x] + ListKeep(list, Except(x.key)), max)
  {
    hide ListKeep, DistinctItems;
    var front, back := Front(list, max), if |list| <= max then [] else list[max..];
    assert list == front + back;
    KeepAppend(front, back, Except(x.key));
    KeepKeys(list, x.key);
    SublistDistinct(list, |front|);
    assert list[..|front|] == front;
    KeepKeys(front, x.key);
    HasKeyIsIn(front, x.key);
    var keptFront, keptBack := ListKeep(front, Except(x.key)), ListKeep(back, Except(x.key));
    if HasKey(front, x.key) {
      if |list| <= max {
        NoKeep<B>(Except(x.key));
        assert keptFront + keptBack == keptFront;
      } else {
        assert Front([x] + (keptFront + keptBack), max) == [x] + keptFront;
      }
    } else {
      WithoutKey(front, x.key);
      if |list| <= max {
        NoKeep<B>(Except(x.key));
        assert front + keptBack == front;
        assert |list| == max ==> Front([x] + front, max) == [x] + front[..max - 1];
      } else {
        assert Front([x] + (front + keptBack), max) == [x] + front[..max - 1];
      }
    }
  }

  lemma NoKeep<B>(keep: string -> bool)
    ensures ListKeep<B>([], keep) == []
  {
  }

  lemma WithoutKey<B>(list: seq<Item<B>>, key: string)
    requires !HasKey(list, key)
    ensures ListKeep(list, Except(key)) == list
  {
    KeepAll(list, Except(key));
  }

  lemma {:induction false} MovedIsDistinct<B>(list: seq<Item<B>>, items: seq<Item<B>>)
    requires DistinctItems(list)
    ensures DistinctItems(Moved(list, items))
  {
    hide ListKeep, DistinctItems;
    if items != [] {
      var init, last := items[..|items| - 1], items[|items| - 1];
      MovedIsDistinct(list, init);
      var before := Moved(list, init);
      KeepKeys(before, last.key);
      PrependDistinct(last, ListKeep(before, Except(last.key)));
    }
  }

  /** What is loaded into a pool is what its window shows of the unbounded list. */
  lemma {:induction false} LoadIsWindow<B>(list: seq<Item<B>>, items: seq<Item<B>>, max: nat)
    requires DistinctItems(list) && |list| <= max && max >= 1
    ensures ListAddAll(list, items, max) == Front(Moved(list, items), max)
  {
    hide ListAdd, ListKeep, DistinctItems;
    if items != [] {
      var init, last := items[..|items| - 1], items[|items| - 1];
      LoadIsWindow(list, init, max);
      MovedIsDistinct(list, init);
      AddInWindow(Moved(list, init), last, max);
    }
  }

  /** The loaded items first, the latest in front; then what was there before, in its order. */
  lemma {:induction false} MovedParts<B>(list: seq<Item<B>>, items: seq<Item<B>>)
    ensures Moved(list, items) == Moved([], items) + ListKeep(list, NotAmong(items))
  {
    hide ListKeep;
    if items == [] {
      KeepAll(list, NotAmong(items));
    } else {
      var init, last := items[..|items| - 1], items[|items| - 1];
      MovedParts(list, init);
      KeepAppend(Moved([], init), ListKeep(list, NotAmong(init)), Except(last.key));
      assert items == init + [last];
      KeysAppend(init, [last]);
      LruAutoload.KeyOfOne(last);
      KeepBoth(list, NotAmong(init), Except(last.key), NotAmong(items));
    }
  }

  /** Loading over a pool that holds no other tools gives the same pool, order included, as
      loading into an empty one. */
  lemma LoadingOverTheSame<B>(list: seq<Item<B>>, items: seq<Item<B>>, max: nat)
    requires DistinctItems(list) && |list| <= max && max >= 1 && ListKeys(list) <= ListKeys(items)
    ensures ListAddAll(list, items, max) == ListAddAll([], items, max)
  {
    hide ListAddAll, Moved;
    LoadIsWindow(list, items, max);
    LoadIsWindow([], items, max);
    MovedParts(list, items);
    forall i | 0 <= i < |list|
      ensures !NotAmong(items)(list[i].key)
    {
      assert list[i].key in ListKeys(list);
    }
    KeepNone(list, NotAmong(items));
    assert Moved([], items) + [] == Moved([], items);
  }

  lemma {:induction false} MovedKeys<B>(items: seq<Item<B>>)
    ensures ListKeys(Moved([], items)) <= ListKeys(items)
  {
    hide ListKeys, ListKeep;
    if items == [] {
      NoListKeys<B>([]);
    } else {
      var init, last := items[..|items| - 1], items[|items| - 1];
      MovedKeys(init);
      MovedIsDistinct([], init);
      var before := Moved([], init);
      KeepKeys(before, last.key);
      KeysAppend([last], ListKeep(before, Except(last.key)));
      LruAutoload.KeyOfOne(last);
      assert items == init + [last];
      KeysAppend(init, [last]);
    }
  }

  lemma {:induction false} KeepIsAll<B>(list: seq<Item<B>>, keep: string -> bool)
    ensures ListKeep(list, keep) == list <==> forall i :: 0 <= i < |list| ==> keep(list[i].key)
    ensures |ListKeep(list, keep)| <= |list|
  {
    if list != [] {
      KeepIsAll(list[1..], keep);
      if keep(list[0].key) {
        assert list == [list[0]] + list[1..];
      }
    }
  }

  /** The loaded items in front and the others of the list behind them, as far as there is room. */
  function Behind<B>(list: seq<Item<B>>, items: seq<Item<B>>, max: nat): seq<Item<B>> {
    var loaded := Moved([], items);
    if |loaded| >= max then [] else Front(ListKeep(list, NotAmong(items)), max - |loaded|)
  }

  lemma LoadIsFrontAndBehind<B>(list: seq<Item<B>>, items: seq<Item<B>>, max: nat)
    requires DistinctItems(list) && |list| <= max && max >= 1
    ensures ListAddAll(list, items, max) == Front(Moved([], items), max) + Behind(list, items, max)
  {
    hide ListAddAll, Moved, ListKeep;
    LoadIsWindow(list, items, max);
    MovedParts(list, items);
  }

  lemma {:induction false} KeepOfPart<B>(list: seq<Item<B>>, keep: string -> bool, n: nat)
    ensures forall i :: 0 <= i < |Front(ListKeep(list, keep), n)| ==> keep(Front(ListKeep(list, keep), n)[i].key)
  {
    KeptOnly(list, keep);
  }

  lemma {:induction false} KeptOnly<B>(list: seq<Item<B>>, keep: string -> bool)
    ensures forall i :: 0 <= i < |ListKeep(list, keep)| ==> keep(ListKeep(list, keep)[i].key)
  {
    if list != [] {
      KeptOnly(list[1..], keep);
    }
  }

  /** What is behind the loaded items once more, after some tools went from the list. */
  lemma BehindAgain<B>(list: seq<Item<B>>, items: seq<Item<B>>, keep: string -> bool, max: nat)
    requires DistinctItems(list) && |list| <= max && max >= 1
    ensures var once := ListAddAll(list, items, max);
            Behind(ListKeep(once, keep), items, max) == ListKeep(Behind(list, items, max), keep)
  {
    hide ListAddAll, Moved, ListKeep, NotAmong, ListKeys;
    LoadIsFrontAndBehind(list, items, max);
    var once, front, behind := ListAddAll(list, items, max), Front(Moved([], items), max), Behind(list, items, max);
    var keepThese: string -> bool := key => keep(key) && NotAmong(items)(key);
    KeepBoth(once, keep, NotAmong(items), keepThese);
    KeepBoth(once, NotAmong(items), keep, keepThese);
    KeepAppend(front, behind, NotAmong(items));
    FrontIsAmong(items, max);
    KeepNone(front, NotAmong(items));
    BehindIsNot(list, items, max);
    KeepAll(behind, NotAmong(items));
    assert [] + behind == behind;
    KeepIsAll(behind, keep);
    if |Moved([], items)| >= max {
      NoKeep<B>(keep);
    }
  }

  lemma FrontIsAmong<B>(items: seq<Item<B>>, max: nat)
    ensures var front := Front(Moved([], items), max);
            forall i :: 0 <= i < |front| ==> !NotAmong(items)(front[i].key)
  {
    hide Moved;
    MovedKeys(items);
    var front := Front(Moved([], items), max);
    forall i | 0 <= i < |front|
      ensures front[i].key in ListKeys(items)
    {
      assert Moved([], items)[i].key in ListKeys(Moved([], items));
    }
  }

  lemma BehindIsNot<B>(list: seq<Item<B>>, items: seq<Item<B>>, max: nat)
    ensures var behind := Behind(list, items, max);
            forall i :: 0 <= i < |behind| ==> NotAmong(items)(behind[i].key)
  {
    hide Moved, ListKeep, NotAmong;
    if |Moved([], items)| < max {
      KeepOfPart(list, NotAmong(items), max - |Moved([], items)|);
    }
  }

  /** Loading the same items again, after some tools went from the list in between, gives the same
      list if and only if none went but of the items. */
  lemma TwiceIsOnceIff<B>(list: seq<Item<B>>, items: seq<Item<B>>, keep: string -> bool, max: nat)
    requires DistinctItems(list) && |list| <= max && max >= 1
    ensures var once := ListAddAll(list, items, max);
      && (ListAddAll(ListKeep(once, keep), items, max) == once
          <==> forall i :: 0 <= i < |once| ==> once[i].key in ListKeys(items) || keep(once[i].key))
  {
    hide ListAddAll, Moved, ListKeep, Behind, NotAmong, ListKeys, DistinctItems;
    var once := ListAddAll(list, items, max);
    var front, behind := Front(Moved([], items), max), Behind(list, items, max);
    AddAllOk(list, items, max);
    LoadIsFrontAndBehind(list, items, max);
    KeepIsAll(once, keep);
    KeepIsDistinct(once, keep);
    LoadIsFrontAndBehind(ListKeep(once, keep), items, max);
    BehindAgain(list, items, keep, max);
    KeepIsAll(behind, keep);
    FrontIsAmong(items, max);
    BehindIsNot(list, items, max);
    SameFront(front, ListKeep(behind, keep), behind);
    OnlyBehindMatters(front, behind, items, keep);
  }

  lemma OnlyBehindMatters<B>(front: seq<Item<B>>, behind: seq<Item<B>>, items: seq<Item<B>>, keep: string -> bool)
    requires forall i :: 0 <= i < |front| ==> !NotAmong(items)(front[i].key)
    requires forall i :: 0 <= i < |behind| ==> NotAmong(items)(behind[i].key)
    ensures var all := front + behind;
      && ((forall i :: 0 <= i < |all| ==> all[i].key in ListKeys(items) || keep(all[i].key))
          <==> forall i :: 0 <= i < |behind| ==> keep(behind[i].key))
  {
    hide ListKeys;
    var all := front + behind;
    assert forall i :: 0 <= i < |front| ==> all[i] == front[i];
    assert forall i :: 0 <= i < |behind| ==> all[|front| + i] == behind[i];
    assert forall i :: |front| <= i < |all| ==> all[i] == behind[i - |front|];
  }

  lemma SameFront<T>(a: seq<T>, b: seq<T>, c: seq<T>)
    ensures a + b == a + c <==> b == c
  {
    assert b == (a + b)[|a|..] && c == (a + c)[|a|..];
  }

  lemma {:induction false} KeepIsDistinct<B>(list: seq<Item<B>>, keep: string -> bool)
    requires DistinctItems(list)
    ensures DistinctItems(ListKeep(list, keep)) && ListKeys(ListKeep(list, keep)) <= ListKeys(list)
  {
    if list != [] {
      var first, rest := list[0], list[1..];
      KeepIsDistinct(rest, keep);
      hide DistinctItems, ListKeys;
      FirstIsNew(list);
      assert list == [first] + rest;
      KeysAppend([first], rest);
      LruAutoload.KeyOfOne(first);
      KeysAppend([first], ListKeep(rest, keep));
      PrependDistinct(first, ListKeep(rest, keep));
      assert !keep(first.key) ==> ListKeep(list, keep) == ListKeep(rest, keep);
    } else {
      assert ListKeep(list, keep) == list;
    }
  }

  lemma FirstIsNew<B>(list: seq<Item<B>>)
    requires DistinctItems(list) && list != []
    ensures DistinctItems(list[1..]) && list[0].key !in ListKeys(list[1..])
  {
    assert forall i :: 0 <= i < |list| - 1 ==> list[1..][i] == list[i + 1];
  }
}
