/**
 * The nonce-sorted element map of the pools (core/pool/ele_list.go): a map, a heap of its nonces, and
 * a cached order. Sorting is library code; here an insertion sort stands for it.
 */
module PoolList {
  import opened Common
  import opened NonceHeaps

  datatype Element = Element(nonce: nat, data: nat)

  type Items = map<nat, Element>

  ghost predicate Ascending(s: seq<nat>) {
    forall i, j :: 0 <= i < j < |s| ==> s[i] < s[j]
  }

  /** The heap holds every stored nonce once. */
  ghost predicate IndexOk(index: seq<nat>, items: Items) {
    IsHeap(index, |index|) && multiset(index) == multiset(items.Keys)
  }

  ghost predicate ItemsOk(items: Items) {
    forall n :: n in items ==> items[n].nonce == n
  }

  /** `es` is the items in nonce order. */
  ghost predicate Ordered(es: seq<Element>, items: Items) {
    && (forall i, j :: 0 <= i < j < |es| ==> es[i].nonce < es[j].nonce)
    && (forall i :: 0 <= i < |es| ==> es[i].nonce in items && items[es[i].nonce] == es[i])
    && (forall n :: n in items ==> exists i :: 0 <= i < |es| && es[i].nonce == n)
  }

  /** The order of a map is unique: a cached one is the one sorting afresh would give. */
  lemma {:induction false} OrderedUnique(a: seq<Element>, b: seq<Element>, items: Items)
    requires Ordered(a, items) && Ordered(b, items)
    ensures a == b
    decreases |a|
  {
    hide Ordered;
    OrderedFirst(a, items);
    OrderedFirst(b, items);
    if a != [] {
      OrderedTail(a, items);
      OrderedTail(b, items);
      OrderedUnique(a[1..], b[1..], items - {a[0].nonce});
      assert a == [a[0]] + a[1..] && b == [b[0]] + b[1..];
    }
  }

  /** The first element has the smallest nonce. */
  lemma {:induction false} OrderedFirst(es: seq<Element>, items: Items)
    requires Ordered(es, items)
    ensures es == [] <==> items == map[]
    ensures es != [] ==> es[0].nonce in items && items[es[0].nonce] == es[0] && forall n :: n in items ==> es[0].nonce <= n
  {
  }

  lemma {:induction false} OrderedTail(es: seq<Element>, items: Items)
    requires Ordered(es, items) && es != []
    ensures Ordered(es[1..], items - {es[0].nonce})
  {
    var t, rest := es[1..], items - {es[0].nonce};
    forall n | n in rest
      ensures exists i :: 0 <= i < |t| && t[i].nonce == n
    {
      var i :| 0 <= i < |es| && es[i].nonce == n;
      assert t[i - 1].nonce == n;
    }
  }

  lemma {:induction false} OrderedInit(es: seq<Element>, items: Items)
    requires Ordered(es, items) && es != []
    ensures Ordered(es[..|es| - 1], items - {es[|es| - 1].nonce})
    ensures forall n :: n in items ==> n <= es[|es| - 1].nonce
  {
    var t, last := es[..|es| - 1], es[|es| - 1].nonce;
    forall n | n in items
      ensures n <= last && (n != last ==> exists i :: 0 <= i < |t| && t[i].nonce == n)
    {
      InitHolds(es, items, n);
    }
  }

  lemma {:induction false} InitHolds(es: seq<Element>, items: Items, n: nat)
    requires Ordered(es, items) && es != [] && n in items
    ensures var t, last := es[..|es| - 1], es[|es| - 1].nonce;
            n <= last && (n != last ==> exists i :: 0 <= i < |t| && t[i].nonce == n)
  {
    var t := es[..|es| - 1];
    var i :| 0 <= i < |es| && es[i].nonce == n;
    assert i < |es| - 1 ==> t[i].nonce == n;
  }

  // ---------------------------------------------------------------- sorting and enumerating

  /** The keys the two sorts compare by. */
  function Nonce(n: nat): nat {
    n
  }

  function ElementNonce(e: Element): nat {
    e.nonce
  }

  ghost predicate InOrder<T>(s: seq<T>, key: T -> nat) {
    forall i, j :: 0 <= i < j < |s| ==> key(s[i]) <= key(s[j])
  }

  /** `sort.Sort`: the same values in the order of their keys. */
  method Sort<T>(s: seq<T>, key: T -> nat) returns (r: seq<T>)
    ensures multiset(r) == multiset(s) && InOrder(r, key)
  {
    hide InOrder;
    r := [];
    InOrderNone(key);
    for i := 0 to |s|
      invariant multiset(r) == multiset(s[..i]) && InOrder(r, key)
    {
      var p := 0;
      while p < |r| && key(r[p]) <= key(s[i])
        invariant 0 <= p <= |r| && forall j :: 0 <= j < p ==> key(r[j]) <= key(s[i])
      {
        p := p + 1;
      }
      assert s[..i + 1] == s[..i] + [s[i]];
      Inserted(r, p, s[i], key);
      r := r[..p] + [s[i]] + r[p..];
    }
    assert s[..|s|] == s;
  }

  lemma {:induction false} InOrderNone<T>(key: T -> nat)
    ensures InOrder([], key)
  {
  }

  lemma {:induction false} Inserted<T>(r: seq<T>, p: nat, x: T, key: T -> nat)
    requires InOrder(r, key) && p <= |r| && (p < |r| ==> key(r[p]) > key(x)) && forall j :: 0 <= j < p ==> key(r[j]) <= key(x)
    ensures InOrder(r[..p] + [x] + r[p..], key) && multiset(r[..p] + [x] + r[p..]) == multiset(r) + multiset{x}
  {
    assert r == r[..p] + r[p..];
  }

  /** A sequence with the members of a set, each once. */
  lemma {:induction false} EachOnce<T>(s: seq<T>, m: set<T>)
    requires multiset(s) == multiset(m)
    ensures (forall i, j :: 0 <= i < j < |s| ==> s[i] != s[j]) && |s| == |m| && forall x :: x in s <==> x in m
  {
    forall i, j | 0 <= i < j < |s|
      ensures s[i] != s[j]
    {
      assert s == s[..j] + s[j..];
      assert s[i] in s[..j] && s[j] in s[j..];
      assert s[i] == s[j] ==> multiset(s)[s[i]] >= 2;
    }
    forall x
      ensures x in s <==> x in m
    {
      assert x in multiset(s) <==> x in multiset(m);
    }
    assert |multiset(s)| == |s| && |multiset(m)| == |m|;
  }

  /** The nonces of a map, in any order. */
  method Enumerate(items: Items) returns (list: seq<nat>)
    ensures multiset(list) == multiset(items.Keys)
  {
    var keys := items.Keys;
    list := [];
    while keys != {}
      invariant keys <= items.Keys && multiset(list) + multiset(keys) == multiset(items.Keys)
    {
      var n :| n in keys;
      assert multiset(keys) == multiset(keys - {n}) + multiset{n};
      keys, list := keys - {n}, list + [n];
    }
  }

  /** The elements of a map, in any order. */
  method Values(items: Items) returns (list: seq<Element>)
    requires ItemsOk(items)
    ensures |list| == |items| && multiset(list) == multiset(items.Values)
  {
    var keys := items.Keys;
    list := [];
    ghost var seen: set<Element> := {};
    while keys != {}
      invariant keys <= items.Keys && |list| + |keys| == |items| && multiset(list) == multiset(seen)
      invariant seen == set n | n in items && n !in keys :: items[n]
    {
      var n :| n in keys;
      assert items[n] !in seen;
      keys, list, seen := keys - {n}, list + [items[n]], seen + {items[n]};
    }
    assert seen == items.Values;
  }

  ghost predicate CacheOk(cache: Option<seq<Element>>, items: Items) {
    cache.Some? ==> Ordered(cache.value, items)
  }

  /** The items with nonces below or from the threshold. */
  ghost function Below(items: Items, t: nat): Items {
    map n | n in items && n < t :: items[n]
  }

  ghost function From(items: Items, t: nat): Items {
    map n | n in items && n >= t :: items[n]
  }

  class SortedMap {
    var items: Items
    const index: NonceHeap
    var cache: Option<seq<Element>>

    ghost predicate Valid()
      reads this, index
    {
      IndexOk(index.h, items) && ItemsOk(items) && CacheOk(cache, items)
    }

    constructor ()
      ensures Valid() && items == map[] && fresh(index)
    {
      items, cache := map[], None;
      index := new NonceHeap();
    }

    /** `Put`. */
    method Put(e: Element)
      requires Valid()
      modifies this, index
      ensures Valid() && items == old(items)[e.nonce := e]
    {
      if e.nonce !in items {
        index.HeapPush(e.nonce);
        assert multiset(items.Keys + {e.nonce}) == multiset(items.Keys) + multiset{e.nonce};
      }
      assert items[e.nonce := e].Keys == items.Keys + {e.nonce};
      items := items[e.nonce := e];
      cache := None;
    }

    /** `Forward`: exactly the items below the threshold go, lowest first. */
    method Forward(threshold: nat) returns (removed: seq<Element>)
      requires Valid()
      modifies this, index
      ensures Valid() && items == From(old(items), threshold) && Ordered(removed, Below(old(items), threshold))
    {
      hide Ordered, IsHeap;
      removed := [];
      ForwardStart(items, threshold);
      ghost var rest := cache;
      while |index.h| > 0 && index.h[0] < threshold
        invariant IndexOk(index.h, items) && ItemsOk(items) && CacheOk(rest, items) && cache == old(cache)
        invariant Forwarding(old(items), items, removed, threshold)
        invariant cache.Some? ==> rest.Some? && |removed| <= |cache.value| && rest.value == cache.value[|removed|..]
        invariant cache.None? ==> rest == cache
        decreases |items|
      {
        TopMin(index.h, items);
        var nonce := index.HeapPop();
        WithoutKey(index.h, items, nonce);
        ForwardStep(old(items), items, removed, threshold, nonce);
        if rest.Some? {
          OrderedFirst(rest.value, items);
          OrderedTail(rest.value, items);
          rest := Some(rest.value[1..]);
        }
        removed := removed + [items[nonce]];
        items := items - {nonce};
      }
      if |index.h| > 0 {
        TopMin(index.h, items);
      } else {
        NoKeys(index.h, items);
      }
      ForwardEnd(old(items), items, removed, threshold);
      if cache.Some? {
        cache := Some(cache.value[|removed|..]);
      }
    }

    /** `Filter`: exactly the items the filter selects go, in any order. */
    method Filter(filter: Element -> bool) returns (removed: seq<Element>)
      requires Valid()
      modifies this, index
      ensures Valid() && items == (map n | n in old(items) && !filter(old(items)[n]) :: old(items)[n])
      ensures multiset(removed) == multiset(set n | n in old(items) && filter(old(items)[n]) :: old(items)[n])
    {
      hide Ordered, IsHeap, Filtering;
      removed := [];
      var keys := items.Keys;
      FilterStart(items, filter);
      while keys != {}
        invariant Filtering(old(items), items, keys, filter, removed) && index.h == old(index.h) && cache == old(cache)
      {
        var n :| n in keys;
        FilterStep(old(items), items, keys, filter, removed, n);
        keys := keys - {n};
        if filter(items[n]) {
          removed := removed + [items[n]];
          items := items - {n};
        }
      }
      FilterEnd(old(items), items, filter, removed);
      if |removed| > 0 {
        index.h := Enumerate(items);
        index.HeapInit();
        cache := None;
      }
    }

    /** `Cap`: the highest nonces go, highest first, until the limit is met. */
    method Cap(threshold: nat) returns (drops: seq<Element>)
      requires Valid()
      modifies this, index
      ensures Valid() && |items| == if |old(items)| <= threshold then |old(items)| else threshold
      ensures Dropping(old(items), items, drops)
    {
      hide Ordered, IsHeap, Dropping, SortedOf, CacheLeft, CacheOk, ItemsOk;
      if |items| <= threshold {
        DropStart(items);
        return [];
      }
      index.h := Sort(index.h, Nonce);
      SortedIndex(index.h, items);
      drops := DropHighest(index.h, threshold);
      SortedKeys(index.h[..threshold], items);
      index.h := index.h[..threshold];
      index.HeapInit();
      CacheNone(items);
      if cache.Some? {
        CacheCut(cache, items, |drops|);
        cache := Some(cache.value[..|cache.value| - |drops|]);
      }
    }

    /** Take the highest nonces off the map, one by one. */
    method DropHighest(sorted: seq<nat>, threshold: nat) returns (drops: seq<Element>)
      requires SortedOf(sorted[..|sorted|], items) && ItemsOk(items) && CacheOk(cache, items) && threshold <= |sorted| == |items|
      modifies this`items
      ensures SortedOf(sorted[..threshold], items) && ItemsOk(items) && |items| == threshold && Dropping(old(items), items, drops)
      ensures CacheLeft(cache, items, |drops|)
    {
      hide Ordered, Dropping, SortedOf, Remaining;
      drops := [];
      DropStart(items);
      var size := |items|;
      ghost var rest := cache;
      RemainingAll(cache);
      while size > threshold
        invariant threshold <= size == |items| <= |sorted| && SortedOf(sorted[..size], items) && ItemsOk(items)
        invariant CacheOk(rest, items) && Dropping(old(items), items, drops) && Remaining(cache, rest, |drops|)
      {
        var nonce := sorted[size - 1];
        CapStep(sorted, size, items);
        DropStep(old(items), items, drops, nonce);
        rest := ShrinkCache(cache, rest, |drops|, items, nonce);
        drops := drops + [items[nonce]];
        items := items - {nonce};
        size := size - 1;
      }
      LeftOver(cache, rest, items, |drops|);
    }

    /** `Remove`. */
    method Remove(nonce: nat) returns (found: bool)
      requires Valid()
      modifies this, index
      ensures Valid() && (found <==> nonce in old(items)) && items == old(items) - {nonce}
    {
      hide Ordered, IsHeap;
      if nonce !in items {
        assert items - {nonce} == items;
        return false;
      }
      EachOnce(index.h, items.Keys);
      var i := 0;
      while index.h[i] != nonce
        invariant 0 <= i < |index.h| && nonce in index.h[i..]
        decreases |index.h| - i
      {
        i := i + 1;
      }
      var x := index.HeapRemove(i);
      WithoutKey(index.h, items, nonce);
      items := items - {nonce};
      cache := None;
      return true;
    }

    /** `Flatten`: the items in nonce order, from the cache if there is one. */
    method Flatten() returns (elements: seq<Element>)
      requires Valid()
      modifies this`cache
      ensures Valid() && Ordered(elements, items)
    {
      hide Ordered, IsHeap;
      if cache.None? {
        var list := Values(items);
        list := Sort(list, ElementNonce);
        SortedValues(list, items);
        cache := Some(list);
      }
      return cache.value;
    }
  }

  /** The top of the heap is the smallest stored nonce. */
  lemma {:induction false} TopMin(index: seq<nat>, items: Items)
    requires IndexOk(index, items) && index != []
    ensures index[0] in items && forall n :: n in items ==> index[0] <= n
  {
    EachOnce(index, items.Keys);
    forall n | n in items
      ensures index[0] <= n
    {
      var i :| 0 <= i < |index| && index[i] == n;
      HeapMin(index, |index|, i);
    }
    assert index[0] in index;
  }

  lemma {:induction false} NoKeys(index: seq<nat>, items: Items)
    requires IndexOk(index, items) && index == []
    ensures items == map[]
  {
    EachOnce(index, items.Keys);
  }

  lemma {:induction false} WithoutKey(index: seq<nat>, items: Items, n: nat)
    requires multiset(index) + multiset{n} == multiset(items.Keys)
    ensures n in items && multiset(index) == multiset((items - {n}).Keys) && |items - {n}| < |items|
  {
    assert n in multiset(items.Keys);
    assert (items - {n}).Keys == items.Keys - {n};
    assert multiset(items.Keys) == multiset(items.Keys - {n}) + multiset{n};
    assert multiset(index) == (multiset(index) + multiset{n}) - multiset{n};
  }

  /** Every element of a map once, in any order. */
  lemma {:induction false} ValuesOnce(es: seq<Element>, items: Items)
    requires ItemsOk(items) && multiset(es) == multiset(items.Values)
    ensures forall i :: 0 <= i < |es| ==> es[i].nonce in items && items[es[i].nonce] == es[i]
    ensures forall i, j :: 0 <= i < j < |es| ==> es[i].nonce != es[j].nonce
    ensures forall n :: n in items ==> exists i :: 0 <= i < |es| && es[i].nonce == n
  {
    EachOnce(es, items.Values);
    forall i | 0 <= i < |es|
      ensures es[i].nonce in items && items[es[i].nonce] == es[i]
    {
      assert es[i] in items.Values;
    }
    forall n | n in items
      ensures exists i :: 0 <= i < |es| && es[i].nonce == n
    {
      assert items[n] in es;
      var i :| 0 <= i < |es| && es[i] == items[n];
      assert es[i].nonce == n;
    }
  }

  lemma {:induction false} SortedValues(es: seq<Element>, items: Items)
    requires ItemsOk(items) && multiset(es) == multiset(items.Values) && InOrder(es, ElementNonce)
    ensures Ordered(es, items)
  {
    hide ItemsOk;
    ValuesOnce(es, items);
    forall i, j | 0 <= i < j < |es|
      ensures es[i].nonce < es[j].nonce
    {
      assert ElementNonce(es[i]) <= ElementNonce(es[j]);
    }
  }

  ghost function Selected(all: Items, keys: set<nat>, filter: Element -> bool): set<Element> {
    set n | n in all && n !in keys && filter(all[n]) :: all[n]
  }

  /** The keys not looked at yet are untouched; of the others those selected have been removed. */
  ghost predicate Filtering(all: Items, items: Items, keys: set<nat>, filter: Element -> bool, removed: seq<Element>) {
    && ItemsOk(all) && keys <= all.Keys && items == (map n | n in all && (n in keys || !filter(all[n])) :: all[n])
    && multiset(removed) == multiset(Selected(all, keys, filter))
  }

  lemma {:induction false} FilterStart(all: Items, filter: Element -> bool)
    requires ItemsOk(all)
    ensures Filtering(all, all, all.Keys, filter, [])
  {
  }

  lemma {:induction false} FilterStep(all: Items, items: Items, keys: set<nat>, filter: Element -> bool, removed: seq<Element>, n: nat)
    requires Filtering(all, items, keys, filter, removed) && n in keys
    ensures n in items
    ensures if filter(items[n]) then Filtering(all, items - {n}, keys - {n}, filter, removed + [items[n]])
            else Filtering(all, items, keys - {n}, filter, removed)
  {
  }

  lemma {:induction false} SelectedHas(all: Items, filter: Element -> bool, n: nat)
    requires n in all
    ensures filter(all[n]) ==> all[n] in Selected(all, {}, filter)
  {
  }

  lemma {:induction false} FilterEnd(all: Items, items: Items, filter: Element -> bool, removed: seq<Element>)
    requires Filtering(all, items, {}, filter, removed)
    ensures items == (map n | n in all && !filter(all[n]) :: all[n]) && ItemsOk(items)
    ensures multiset(removed) == multiset(set n | n in all && filter(all[n]) :: all[n])
    ensures removed == [] ==> items == all
  {
    var selected := Selected(all, {}, filter);
    assert selected == (set n | n in all && filter(all[n]) :: all[n]);
    if removed == [] {
      assert multiset(selected) == multiset{};
      forall n | n in all
        ensures !filter(all[n])
      {
        var e := all[n];
        SelectedHas(all, filter, n);
        assert e !in multiset(selected);
      }
    }
  }

  ghost function Rev(es: seq<Element>): seq<Element> {
    if es == [] then [] else [es[|es| - 1]] + Rev(es[..|es| - 1])
  }

  /** What has been dropped so far lies above everything left, highest first. */
  ghost predicate Dropping(all: Items, items: Items, drops: seq<Element>) {
    && items.Keys <= all.Keys && (forall n :: n in items ==> items[n] == all[n])
    && Ordered(Rev(drops), all - items.Keys) && forall n, m :: n in all - items.Keys && m in items ==> m < n
  }

  lemma {:induction false} DropStart(items: Items)
    ensures Dropping(items, items, [])
  {
  }

  lemma {:induction false} DropStep(all: Items, items: Items, drops: seq<Element>, n: nat)
    requires Dropping(all, items, drops) && ItemsOk(items) && n in items && forall m :: m in items ==> m <= n
    ensures Dropping(all, items - {n}, drops + [items[n]])
  {
    hide Ordered;
    var b, gone := items - {n}, all - items.Keys;
    assert all - b.Keys == gone[n := all[n]];
    assert (drops + [items[n]])[..|drops|] == drops;
    OrderedCons(items[n], Rev(drops), gone);
  }

  lemma {:induction false} OrderedCons(e: Element, es: seq<Element>, items: Items)
    requires Ordered(es, items) && e.nonce !in items && forall n :: n in items ==> e.nonce < n
    ensures Ordered([e] + es, items[e.nonce := e])
  {
    var t, b := [e] + es, items[e.nonce := e];
    forall n | n in b
      ensures exists i :: 0 <= i < |t| && t[i].nonce == n
    {
      if n in items && n != e.nonce {
        var i :| 0 <= i < |es| && es[i].nonce == n;
        assert t[i + 1].nonce == n;
      } else {
        assert t[0].nonce == n;
      }
    }
  }

  ghost predicate SortedOf(s: seq<nat>, items: Items) {
    Ascending(s) && forall n :: n in s <==> n in items
  }

  /** `rest` is the cache without its last `k` elements. */
  ghost predicate Remaining(cache: Option<seq<Element>>, rest: Option<seq<Element>>, k: nat) {
    if cache.Some? then rest.Some? && k <= |cache.value| && rest.value == cache.value[..|cache.value| - k] else rest.None?
  }

  /** The cache without its last `k` elements is the order of what is left. */
  ghost predicate CacheLeft(cache: Option<seq<Element>>, items: Items, k: nat) {
    cache.Some? ==> k <= |cache.value| && Ordered(cache.value[..|cache.value| - k], items)
  }

  lemma {:induction false} CacheCut(cache: Option<seq<Element>>, items: Items, k: nat)
    requires CacheLeft(cache, items, k) && cache.Some?
    ensures k <= |cache.value| && CacheOk(Some(cache.value[..|cache.value| - k]), items)
  {
  }

  lemma {:induction false} CacheNone(items: Items)
    ensures CacheOk(None, items)
  {
  }

  lemma {:induction false} LeftOver(cache: Option<seq<Element>>, rest: Option<seq<Element>>, items: Items, k: nat)
    requires Remaining(cache, rest, k) && CacheOk(rest, items)
    ensures CacheLeft(cache, items, k)
  {
  }

  lemma {:induction false} RemainingAll(cache: Option<seq<Element>>)
    ensures Remaining(cache, cache, 0)
  {
  }

  lemma {:induction false} ShrinkCache(cache: Option<seq<Element>>, rest: Option<seq<Element>>, k: nat, items: Items, n: nat) returns (r: Option<seq<Element>>)
    requires Remaining(cache, rest, k) && CacheOk(rest, items) && n in items && forall m :: m in items ==> m <= n
    ensures Remaining(cache, r, k + 1) && CacheOk(r, items - {n})
  {
    hide Ordered;
    r := rest;
    if rest.Some? {
      CacheLast(rest.value, items, n);
      r := Some(rest.value[..|rest.value| - 1]);
    }
  }

  lemma {:induction false} CapStep(sorted: seq<nat>, size: nat, items: Items)
    requires 0 < size <= |sorted| && SortedOf(sorted[..size], items)
    ensures var n := sorted[size - 1];
            n in items && (forall m :: m in items ==> m <= n) && SortedOf(sorted[..size - 1], items - {n}) && |items - {n}| == |items| - 1
  {
  }

  lemma {:induction false} SortedIndex(s: seq<nat>, items: Items)
    requires multiset(s) == multiset(items.Keys) && InOrder(s, Nonce)
    ensures SortedOf(s[..|s|], items) && |s| == |items|
  {
    EachOnce(s, items.Keys);
    assert s[..|s|] == s;
  }

  lemma {:induction false} SortedKeys(s: seq<nat>, items: Items)
    requires SortedOf(s, items)
    ensures multiset(s) == multiset(items.Keys)
  {
    assert forall n :: n in s ==> multiset(s)[n] >= 1;
    forall n | n in s
      ensures multiset(s)[n] == 1
    {
      CountAscending(s, n);
    }
  }

  lemma {:induction false} CountAscending(s: seq<nat>, n: nat)
    requires Ascending(s) && n in s
    ensures multiset(s)[n] == 1
  {
    var i :| 0 <= i < |s| && s[i] == n;
    assert s == s[..i] + [n] + s[i + 1..];
    assert n !in s[..i] && n !in s[i + 1..];
  }

  lemma {:induction false} CacheLast(es: seq<Element>, items: Items, n: nat)
    requires Ordered(es, items) && n in items && forall m :: m in items ==> m <= n
    ensures es != [] && Ordered(es[..|es| - 1], items - {n})
  {
    hide Ordered;
    OrderedFirst(es, items);
    OrderedLast(es, items);
    OrderedInit(es, items);
  }

  lemma {:induction false} OrderedLast(es: seq<Element>, items: Items)
    requires Ordered(es, items)
    ensures es != [] ==> es[|es| - 1].nonce in items
  {
  }

  /** What has been removed so far is an initial part of the items below the threshold. */
  ghost predicate Forwarding(all: Items, items: Items, removed: seq<Element>, t: nat) {
    && items.Keys <= all.Keys && (forall n :: n in items ==> items[n] == all[n])
    && Ordered(removed, all - items.Keys) && (forall n, m :: n in all - items.Keys && m in items ==> n < m)
    && (forall n :: n in all - items.Keys ==> n < t)
  }

  lemma {:induction false} ForwardStart(items: Items, t: nat)
    ensures Forwarding(items, items, [], t)
  {
  }

  lemma {:induction false} ForwardStep(all: Items, items: Items, removed: seq<Element>, t: nat, n: nat)
    requires Forwarding(all, items, removed, t) && ItemsOk(items) && n in items && n < t && forall m :: m in items ==> n <= m
    ensures Forwarding(all, items - {n}, removed + [items[n]], t)
  {
    var b := items - {n};
    assert all - b.Keys == (all - items.Keys)[n := all[n]];
    OrderedSnoc(removed, all - items.Keys, items[n]);
  }

  lemma {:induction false} OrderedSnoc(es: seq<Element>, items: Items, e: Element)
    requires Ordered(es, items) && e.nonce !in items && forall n :: n in items ==> n < e.nonce
    ensures Ordered(es + [e], items[e.nonce := e])
  {
    var t, b := es + [e], items[e.nonce := e];
    forall n | n in b
      ensures exists i :: 0 <= i < |t| && t[i].nonce == n
    {
      if n in items {
        var i :| 0 <= i < |es| && es[i].nonce == n;
        assert t[i].nonce == n;
      } else {
        assert t[|es|].nonce == n;
      }
    }
  }

  lemma {:induction false} ForwardEnd(all: Items, items: Items, removed: seq<Element>, t: nat)
    requires Forwarding(all, items, removed, t) && forall n :: n in items ==> n >= t
    ensures items == From(all, t) && Ordered(removed, Below(all, t))
  {
    hide Ordered;
    forall n | n in all
      ensures n in items <==> n >= t
    {
      assert n in items || n in all - items.Keys;
    }
    assert items == From(all, t);
    assert all - items.Keys == Below(all, t);
  }
}
