/** The recursive hydration of a Nuxt 3 payload: a flat array whose slots
    refer to one another by index.  Each slot is hydrated at most once; a
    container is cached before its children are hydrated, so cyclic and shared
    references resolve to the same container. */
module Hydration {
  import opened JsonValues
  import opened Hydrated
  import opened SpecialValues
  import opened Expansion

  /** The outcome of one hydration call: a value, or an exception that escapes
      (a `TypeError` from a set, map or big integer slot). */
  datatype Step = Value(v: HVal) | Raised

  // ---------------------------------------------------------------------------
  // How the containers' specifications grow by one element.

  lemma AllStep(n: nat, xs: seq<Json>, k: int, c: map<int, Cached>)
    requires 0 <= k < |xs|
    ensures RefAll(n, xs[..k + 1], c) == RefAll(n, xs[..k], c) + [Ref(n, xs[k], c)]
  {
  }

  lemma AllCachedStep(n: nat, xs: seq<Json>, k: int, c: map<int, Cached>)
    requires 0 <= k < |xs| && AllCached(n, xs[..k], c) && RefCached(n, xs[k], c)
    ensures AllCached(n, xs[..k + 1], c)
  {
    var ys := xs[..k + 1];
    forall m | 0 <= m < |ys| ensures RefCached(n, ys[m], c) {
      if m < k {
        assert ys[m] == xs[..k][m];
      }
    }
  }

  lemma EntriesCachedStep(n: nat, es: seq<(string, Json)>, k: int, c: map<int, Cached>)
    requires 0 <= k < |es| && EntriesCached(n, es[..k], c) && RefCached(n, es[k].1, c)
    ensures EntriesCached(n, es[..k + 1], c)
  {
    var ys := es[..k + 1];
    forall m | 0 <= m < |ys| ensures RefCached(n, ys[m].1, c) {
      if m < k {
        assert ys[m] == es[..k][m];
      }
    }
  }

  lemma SetStep(n: nat, xs: seq<Json>, k: int, c: map<int, Cached>)
    requires 0 <= k < |xs|
    requires SetBuild(RefAll(n, xs[..k], c)).Some? && Hashable(Ref(n, xs[k], c))
    ensures SetBuild(RefAll(n, xs[..k + 1], c))
      == Some(SetAdd(SetBuild(RefAll(n, xs[..k], c)).value, Ref(n, xs[k], c)))
  {
    var hs := RefAll(n, xs[..k + 1], c);
    assert hs[..|hs| - 1] == RefAll(n, xs[..k], c);
  }

  lemma UnpackStep(ps: seq<Json>, k: int, kvs: seq<(Json, Json)>)
    requires 0 <= k < |ps| && UnpackAll(ps[..k]) == Some(kvs) && Unpack2(ps[k]).Some?
    ensures UnpackAll(ps[..k + 1]) == Some(kvs + [Unpack2(ps[k]).value])
  {
    assert ps[..k + 1][..k] == ps[..k];
  }

  lemma MapStep(n: nat, kvs: seq<(Json, Json)>, kv: (Json, Json), c: map<int, Cached>)
    requires MapBuild(RefPairs(n, kvs, c)).Some? && Hashable(Ref(n, kv.0, c))
    ensures MapBuild(RefPairs(n, kvs + [kv], c))
      == Some(MapPut(MapBuild(RefPairs(n, kvs, c)).value, Ref(n, kv.0, c), Ref(n, kv.1, c)))
  {
    var hs := RefPairs(n, kvs + [kv], c);
    assert hs[..|hs| - 1] == RefPairs(n, kvs, c);
  }

  lemma DictStep(n: nat, es: seq<(string, Json)>, k: int, c: map<int, Cached>)
    requires 0 <= k < |es|
    ensures DictBuild(RefEntries(n, es[..k + 1], c))
      == DictPut(DictBuild(RefEntries(n, es[..k], c)), es[k].0, Ref(n, es[k].1, c))
  {
    var hs := RefEntries(n, es[..k + 1], c);
    assert hs[..|hs| - 1] == RefEntries(n, es[..k], c);
  }

  // ---------------------------------------------------------------------------
  // One iteration of each container loop: the child hydrated in `c` (which
  // extends `before`, the cache at the start of the iteration) is added to the
  // container of slot `i`, giving the cache `after`.

  lemma {:induction false} ListAdvance(data: seq<Json>, compiles: string -> bool, c0: map<int, Cached>,
                                       before: map<int, Cached>, c: map<int, Cached>,
                                       i: int, items: seq<Json>, k: int, acc: seq<HVal>, h: HVal)
    requires 0 <= k < |items| && i in c0 && i in before && before[i].Box?
    requires Extends(before, c) && CompleteBeyond(data, compiles, c0, before)
    requires CompleteBeyond(data, compiles, before, c)
    requires AllCached(|data|, items[..k], before) && acc == RefAll(|data|, items[..k], before)
    requires RefCached(|data|, items[k], c) && h == Ref(|data|, items[k], c)
    ensures var after := c[i := Box(ListObj(acc + [h]))];
      && AllCached(|data|, items[..k + 1], after)
      && acc + [h] == RefAll(|data|, items[..k + 1], after)
      && CompleteBeyond(data, compiles, c0, after)
  {
    var n := |data|;
    UntouchedKeeps(before, c);
    AllKept(n, items[..k], before, c);
    CompleteBeyondGrow(data, compiles, c0, before, c);
    AllStep(n, items, k, c);
    AllCachedStep(n, items, k, c);
    RefillKeeps(c, i, ListObj(acc + [h]));
    AllKept(n, items[..k + 1], c, c[i := Box(ListObj(acc + [h]))]);
    CompleteBeyondRefill(data, compiles, c0, c, i, ListObj(acc + [h]));
  }

  lemma {:induction false} SetAdvance(data: seq<Json>, compiles: string -> bool, c0: map<int, Cached>,
                                      before: map<int, Cached>, c: map<int, Cached>,
                                      i: int, xs: seq<Json>, k: int, elems: seq<HVal>, h: HVal)
    requires 0 <= k < |xs| && i in c0 && i in before && before[i].Box?
    requires Extends(before, c) && CompleteBeyond(data, compiles, c0, before)
    requires CompleteBeyond(data, compiles, before, c)
    requires AllCached(|data|, xs[..k], before) && SetBuild(RefAll(|data|, xs[..k], before)) == Some(elems)
    requires RefCached(|data|, xs[k], c) && h == Ref(|data|, xs[k], c) && Hashable(h)
    requires 0 <= i < |data| && !SlotHashable(compiles, data[i]) && HashConsistent(data, compiles, c)
    requires Extends(c0 - {i}, before)
    ensures DistinctKeys(elems)
    ensures var after := c[i := Box(SetObj(SetAdd(elems, h)))];
      && HashConsistent(data, compiles, after)
      && Extends(c0 - {i}, after)
      && AllCached(|data|, xs[..k + 1], after)
      && SetBuild(RefAll(|data|, xs[..k + 1], after)) == Some(SetAdd(elems, h))
      && CompleteBeyond(data, compiles, c0, after)
  {
    var n := |data|;
    UntouchedKeeps(before, c);
    AllKept(n, xs[..k], before, c);
    CompleteBeyondGrow(data, compiles, c0, before, c);
    SetStep(n, xs, k, c);
    AllCachedStep(n, xs, k, c);
    var o := SetObj(SetAdd(elems, h));
    StoreConsistent(data, compiles, c, i, Box(o));
    RefillKeeps(c, i, o);
    AllKept(n, xs[..k + 1], c, c[i := Box(o)]);
    CompleteBeyondRefill(data, compiles, c0, c, i, o);
  }

  lemma {:induction false} MapAdvance(data: seq<Json>, compiles: string -> bool, c0: map<int, Cached>,
                                      before: map<int, Cached>, c: map<int, Cached>,
                                      i: int, kvs: seq<(Json, Json)>, kv: (Json, Json),
                                      pairs: seq<(HVal, HVal)>, hk: HVal, hv: HVal)
    requires i in c0 && i in before && before[i].Box?
    requires Extends(before, c) && CompleteBeyond(data, compiles, c0, before)
    requires CompleteBeyond(data, compiles, before, c)
    requires PairsCached(|data|, kvs, before) && MapBuild(RefPairs(|data|, kvs, before)) == Some(pairs)
    requires RefCached(|data|, kv.0, c) && hk == Ref(|data|, kv.0, c) && Hashable(hk)
    requires RefCached(|data|, kv.1, c) && hv == Ref(|data|, kv.1, c)
    requires 0 <= i < |data| && !SlotHashable(compiles, data[i]) && HashConsistent(data, compiles, c)
    requires Extends(c0 - {i}, before)
    ensures var after := c[i := Box(MapObj(MapPut(pairs, hk, hv)))];
      && HashConsistent(data, compiles, after)
      && Extends(c0 - {i}, after)
      && PairsCached(|data|, kvs + [kv], after)
      && MapBuild(RefPairs(|data|, kvs + [kv], after)) == Some(MapPut(pairs, hk, hv))
      && CompleteBeyond(data, compiles, c0, after)
  {
    var n := |data|;
    UntouchedKeeps(before, c);
    PairsKept(n, kvs, before, c);
    CompleteBeyondGrow(data, compiles, c0, before, c);
    MapStep(n, kvs, kv, c);
    var o := MapObj(MapPut(pairs, hk, hv));
    StoreConsistent(data, compiles, c, i, Box(o));
    RefillKeeps(c, i, o);
    PairsKept(n, kvs + [kv], c, c[i := Box(o)]);
    CompleteBeyondRefill(data, compiles, c0, c, i, o);
  }

  lemma {:induction false} DictAdvance(data: seq<Json>, compiles: string -> bool, c0: map<int, Cached>,
                                       before: map<int, Cached>, c: map<int, Cached>,
                                       i: int, es: seq<(string, Json)>, k: int,
                                       entries: seq<(string, HVal)>, h: HVal)
    requires 0 <= k < |es| && i in c0 && i in before && before[i].Box?
    requires Extends(before, c) && CompleteBeyond(data, compiles, c0, before)
    requires CompleteBeyond(data, compiles, before, c)
    requires EntriesCached(|data|, es[..k], before) && entries == DictBuild(RefEntries(|data|, es[..k], before))
    requires RefCached(|data|, es[k].1, c) && h == Ref(|data|, es[k].1, c)
    ensures var after := c[i := Box(DictObj(DictPut(entries, es[k].0, h)))];
      && EntriesCached(|data|, es[..k + 1], after)
      && DictPut(entries, es[k].0, h) == DictBuild(RefEntries(|data|, es[..k + 1], after))
      && CompleteBeyond(data, compiles, c0, after)
  {
    var n := |data|;
    UntouchedKeeps(before, c);
    EntriesKept(n, es[..k], before, c);
    CompleteBeyondGrow(data, compiles, c0, before, c);
    DictStep(n, es, k, c);
    EntriesCachedStep(n, es, k, c);
    var o := DictObj(DictPut(entries, es[k].0, h));
    RefillKeeps(c, i, o);
    EntriesKept(n, es[..k + 1], c, c[i := Box(o)]);
    CompleteBeyondRefill(data, compiles, c0, c, i, o);
  }

  // ---------------------------------------------------------------------------
  // The end of each container loop: the container of slot `i` now holds the
  // expansion of `data[i]`, so `i` is complete along with the slots added.

  lemma {:induction false} ListFinish(data: seq<Json>, compiles: string -> bool, c0: map<int, Cached>,
                                      c: map<int, Cached>, i: int, acc: seq<HVal>)
    requires 0 <= i < |data| && data[i].JArr? && i in c0 && i in c && c[i] == Box(ListObj(acc))
    requires AllCached(|data|, data[i].items, c) && acc == RefAll(|data|, data[i].items, c)
    requires CompleteBeyond(data, compiles, c0, c)
    ensures CompleteBeyond(data, compiles, c0 - {i}, c)
  {
    assert Complete(data, compiles, i, c);
  }

  lemma {:induction false} SetFinish(data: seq<Json>, compiles: string -> bool, c0: map<int, Cached>,
                                     c: map<int, Cached>, i: int, xs: seq<Json>, elems: seq<HVal>)
    requires 0 <= i < |data| && data[i].JObj? && TagOf(data[i].entries) == SetTag
    requires Iterate(Lookup(data[i].entries, "$s")) == Some(xs)
    requires i in c0 && i in c && c[i] == Box(SetObj(elems))
    requires AllCached(|data|, xs, c) && SetBuild(RefAll(|data|, xs, c)) == Some(elems)
    requires CompleteBeyond(data, compiles, c0, c)
    ensures CompleteBeyond(data, compiles, c0 - {i}, c)
  {
    assert Complete(data, compiles, i, c);
  }

  lemma {:induction false} MapFinish(data: seq<Json>, compiles: string -> bool, c0: map<int, Cached>,
                                     c: map<int, Cached>, i: int, ps: seq<Json>,
                                     kvs: seq<(Json, Json)>, pairs: seq<(HVal, HVal)>)
    requires 0 <= i < |data| && data[i].JObj? && TagOf(data[i].entries) == MapTag
    requires Iterate(Lookup(data[i].entries, "$m")) == Some(ps) && UnpackAll(ps) == Some(kvs)
    requires i in c0 && i in c && c[i] == Box(MapObj(pairs))
    requires PairsCached(|data|, kvs, c) && MapBuild(RefPairs(|data|, kvs, c)) == Some(pairs)
    requires CompleteBeyond(data, compiles, c0, c)
    ensures CompleteBeyond(data, compiles, c0 - {i}, c)
  {
    assert Complete(data, compiles, i, c);
  }

  lemma {:induction false} DictFinish(data: seq<Json>, compiles: string -> bool, c0: map<int, Cached>,
                                      c: map<int, Cached>, i: int, entries: seq<(string, HVal)>)
    requires 0 <= i < |data| && data[i].JObj? && TagOf(data[i].entries) == PlainTag
    requires i in c0 && i in c && c[i] == Box(DictObj(entries))
    requires EntriesCached(|data|, data[i].entries, c)
    requires entries == DictBuild(RefEntries(|data|, data[i].entries, c))
    requires CompleteBeyond(data, compiles, c0, c)
    ensures CompleteBeyond(data, compiles, c0 - {i}, c)
  {
    assert Complete(data, compiles, i, c);
  }

  /** A set member whose hydrated value cannot be hashed makes the set slot
      raise, so it is never fully hydrated. */
  lemma {:induction false} SetMemberRaises(data: seq<Json>, compiles: string -> bool, c: map<int, Cached>,
                                           i: int, xs: seq<Json>, k: int)
    requires 0 <= i < |data| && data[i].JObj? && TagOf(data[i].entries) == SetTag
    requires Iterate(Lookup(data[i].entries, "$s")) == Some(xs) && 0 <= k < |xs|
    requires HashConsistent(data, compiles, c) && RefCached(|data|, xs[k], c)
    requires !Hashable(Ref(|data|, xs[k], c))
    ensures Raises(data, compiles, data[i]) && Unhydratable(data, compiles, i)
  {
    RefHashes(data, compiles, xs[k], c);
    RaisesUnhydratable(data, compiles, i);
  }

  /** A `$m` item that is not a pair, or whose key hydrates to a value that
      cannot be hashed, makes the map slot raise, so it is never fully
      hydrated. */
  lemma {:induction false} MapItemRaises(data: seq<Json>, compiles: string -> bool, c: map<int, Cached>,
                                         i: int, ps: seq<Json>, k: int)
    requires 0 <= i < |data| && data[i].JObj? && TagOf(data[i].entries) == MapTag
    requires Iterate(Lookup(data[i].entries, "$m")) == Some(ps) && 0 <= k < |ps|
    requires HashConsistent(data, compiles, c)
    requires Unpack2(ps[k]).Some? ==>
      RefCached(|data|, Unpack2(ps[k]).value.0, c) && !Hashable(Ref(|data|, Unpack2(ps[k]).value.0, c))
    ensures Raises(data, compiles, data[i]) && Unhydratable(data, compiles, i)
  {
    if Unpack2(ps[k]).Some? {
      RefHashes(data, compiles, Unpack2(ps[k]).value.0, c);
    }
    RaisesUnhydratable(data, compiles, i);
  }

  /** Caching the expansion of a scalar slot keeps the cache consistent and
      leaves the slot complete: that expansion reads no other slot. */
  lemma {:induction false} ScalarStore(data: seq<Json>, compiles: string -> bool, c: map<int, Cached>, i: int, e: Cached)
    requires 0 <= i < |data| && HashConsistent(data, compiles, c)
    requires Expand(|data|, compiles, data[i], c) == Some(e) && e.Scalar?
    ensures HashConsistent(data, compiles, c[i := e])
    ensures Complete(data, compiles, i, c[i := e])
  {
    ExpandHashable(|data|, compiles, data[i], c, e, i);
    StoreConsistent(data, compiles, c, i, e);
  }

  // ---------------------------------------------------------------------------

  /** One hydration run over `data`; `cache` maps each slot hydrated so far to
      its value or to the container created for it. */
  class Hydrator {
    const data: seq<Json>
    /** Whether `re.compile` accepts a pattern body. */
    const compiles: string -> bool
    var cache: map<int, Cached>

    /** The cache only holds slots of the array, and a cached value can be
        hashed exactly when its slot says so. */
    predicate Valid()
      reads this
    {
      && (forall j :: j in cache ==> 0 <= j < |data|)
      && HashConsistent(data, compiles, cache)
    }

    /** Slots not yet hydrated; every nested call starts with fewer of them. */
    ghost function Unvisited(): set<int>
      reads this
    {
      UnvisitedOf(|data|, cache)
    }

    constructor(data: seq<Json>, compiles: string -> bool)
      ensures this.data == data && this.compiles == compiles
      ensures cache == map[] && Valid()
    {
      this.data := data;
      this.compiles := compiles;
      cache := map[];
    }

    /** Hydrate `x`: a non-int is returned as is, an out-of-range index yields
        `None`, a cached slot its cached value, and any other slot is expanded,
        cached and returned.  The slots this call adds are fully hydrated, the
        entries already cached are untouched, and an exception escapes only
        from a slot among those added that `Raises` on its own account. */
    method Hydrate(x: Json) returns (r: Step)
      requires Valid()
      modifies this
      decreases Unvisited(), 3
      ensures Valid() && Unvisited() <= old(Unvisited())
      ensures Extends(old(cache), cache)
      ensures r.Value? ==> RefCached(|data|, x, cache) && r.v == Ref(|data|, x, cache)
      ensures r.Value? ==> CompleteBeyond(data, compiles, old(cache), cache)
      ensures r.Raised? ==> exists j :: 0 <= j < |data| && j !in old(cache) && Raises(data, compiles, data[j])
      ensures r.Raised? ==> InRange(|data|, x) && Unhydratable(data, compiles, AsIndex(x).value)
      ensures !InRange(|data|, x) || AsIndex(x).value in old(cache) ==>
        cache == old(cache) && r == Value(Ref(|data|, x, old(cache)))
    {
      var idx := AsIndex(x);
      if idx.None? {
        return Value(Plain(x));
      }
      var i := idx.value;
      if i < 0 || i >= |data| {
        return Value(Plain(JNull));
      }
      if i in cache {
        return Value(Resolve(i, cache[i]));
      }
      r := HydrateSlot(i);
    }

    /** Expand the uncached slot `i`: a primitive is cached as itself, a list
        is cached as an empty list first and then filled, and a dict is
        dispatched on its marker key. */
    method HydrateSlot(i: int) returns (r: Step)
      requires Valid() && 0 <= i < |data| && i !in cache
      modifies this
      decreases Unvisited(), 2
      ensures Valid() && Unvisited() <= old(Unvisited())
      ensures Extends(old(cache), cache)
      ensures r.Value? ==> i in cache && r.v == Resolve(i, cache[i])
      ensures r.Value? ==> CompleteBeyond(data, compiles, old(cache), cache)
      ensures r.Raised? ==> exists j :: 0 <= j < |data| && j !in old(cache) && Raises(data, compiles, data[j])
      ensures r.Raised? ==> Unhydratable(data, compiles, i)
    {
      var raw := data[i];
      if raw.JArr? {
        VisitShrinks(|data|, cache, i, Box(ListObj([])));
        StoreConsistent(data, compiles, cache, i, Box(ListObj([])));
        cache := cache[i := Box(ListObj([]))];
        var ok := HydrateList(i, raw.items);
        r := if ok then Value(Node(i)) else Raised;
      } else if raw.JObj? {
        r := HydrateObject(i);
      } else {
        VisitShrinks(|data|, cache, i, Scalar(Plain(raw)));
        StoreConsistent(data, compiles, cache, i, Scalar(Plain(raw)));
        cache := cache[i := Scalar(Plain(raw))];
        assert Complete(data, compiles, i, cache);
        r := Value(Plain(raw));
      }
    }

    /** Expand the uncached dict slot `i` by its first marker key in the order
        `$d`, `$s`, `$m`, `$b`, `$r`: a date, big integer or regular expression
        is cached as its value; a set, a map or a dict without a marker is
        cached as an empty container first and then filled. */
    method HydrateObject(i: int) returns (r: Step)
      requires Valid() && 0 <= i < |data| && i !in cache && data[i].JObj?
      modifies this
      decreases Unvisited(), 1
      ensures Valid() && Unvisited() <= old(Unvisited())
      ensures Extends(old(cache), cache)
      ensures r.Value? ==> i in cache && r.v == Resolve(i, cache[i])
      ensures r.Value? ==> CompleteBeyond(data, compiles, old(cache), cache)
      ensures r.Raised? ==> exists j :: 0 <= j < |data| && j !in old(cache) && Raises(data, compiles, data[j])
      ensures r.Raised? ==> Unhydratable(data, compiles, i)
      ensures r.Raised? && TagOf(data[i].entries) == BigIntTag ==> cache == old(cache)
    {
      var raw := data[i];
      var es := raw.entries;
      var tag := TagOf(es);
      ghost var c0 := cache;
      match tag {
        case DateTag =>
          var e := Scalar(DecodeDate(raw, Lookup(es, "$d")));
          VisitShrinks(|data|, cache, i, e);
          ScalarStore(data, compiles, cache, i, e);
          cache := cache[i := e];
          r := Value(e.v);
        case SetTag =>
          VisitShrinks(|data|, cache, i, Box(SetObj([])));
          StoreConsistent(data, compiles, cache, i, Box(SetObj([])));
          cache := cache[i := Box(SetObj([]))];
          var ok := HydrateSet(i, Lookup(es, "$s"));
          StoreExtends(c0, i, Box(SetObj([])), cache);
          r := if ok then Value(Node(i)) else Raised;
        case MapTag =>
          VisitShrinks(|data|, cache, i, Box(MapObj([])));
          StoreConsistent(data, compiles, cache, i, Box(MapObj([])));
          cache := cache[i := Box(MapObj([]))];
          var ok := HydrateMap(i, Lookup(es, "$m"));
          StoreExtends(c0, i, Box(MapObj([])), cache);
          r := if ok then Value(Node(i)) else Raised;
        case BigIntTag =>
          var b := DecodeBigInt(raw, Lookup(es, "$b"));
          if b.None? {
            assert Raises(data, compiles, raw);
            RaisesUnhydratable(data, compiles, i);
            return Raised;
          }
          var e := Scalar(b.value);
          VisitShrinks(|data|, cache, i, e);
          ScalarStore(data, compiles, cache, i, e);
          cache := cache[i := e];
          r := Value(e.v);
        case RegExpTag =>
          var e := Scalar(DecodeRegExp(raw, Lookup(es, "$r"), compiles));
          VisitShrinks(|data|, cache, i, e);
          ScalarStore(data, compiles, cache, i, e);
          cache := cache[i := e];
          r := Value(e.v);
        case PlainTag =>
          VisitShrinks(|data|, cache, i, Box(DictObj([])));
          StoreConsistent(data, compiles, cache, i, Box(DictObj([])));
          cache := cache[i := Box(DictObj([]))];
          var ok := HydrateDict(i, es);
          StoreExtends(c0, i, Box(DictObj([])), cache);
          r := if ok then Value(Node(i)) else Raised;
      }
    }

    /** Append the hydrated items of the list at slot `i` to its cached list. */
    method HydrateList(i: int, items: seq<Json>) returns (ok: bool)
      requires Valid() && 0 <= i < |data| && data[i] == JArr(items)
      requires i in cache && cache[i] == Box(ListObj([]))
      modifies this
      decreases Unvisited(), 5
      ensures Valid() && Unvisited() <= old(Unvisited())
      ensures i in cache && cache[i].Box?
      ensures Extends(old(cache) - {i}, cache)
      ensures ok ==> CompleteBeyond(data, compiles, old(cache) - {i}, cache)
      ensures !ok ==> exists j :: 0 <= j < |data| && j !in old(cache) && Raises(data, compiles, data[j])
      ensures !ok ==> Unhydratable(data, compiles, i)
    {
      var n := |data|;
      var acc: seq<HVal> := [];
      var k := 0;
      while k < |items|
        invariant 0 <= k <= |items|
        invariant Valid() && Unvisited() <= old(Unvisited())
        invariant i in cache && cache[i] == Box(ListObj(acc))
        invariant Extends(old(cache) - {i}, cache)
        invariant AllCached(n, items[..k], cache) && acc == RefAll(n, items[..k], cache)
        invariant CompleteBeyond(data, compiles, old(cache), cache)
      {
        ghost var before := cache;
        var h := Hydrate(items[k]);
        if h.Raised? {
          ListItemUnhydratable(data, compiles, i, k);
          return false;
        }
        ListAdvance(data, compiles, old(cache), before, cache, i, items, k, acc, h.v);
        acc := acc + [h.v];
        RefillSameUnvisited(|data|, cache, i, Box(ListObj(acc)));
        StoreConsistent(data, compiles, cache, i, Box(ListObj(acc)));
        cache := cache[i := Box(ListObj(acc))];
        k := k + 1;
      }
      assert items[..k] == items;
      ListFinish(data, compiles, old(cache), cache, i, acc);
      return true;
    }

    /** Add the hydrated members of the `$s` payload to the set at slot `i`. */
    method HydrateSet(i: int, payload: Json) returns (ok: bool)
      requires Valid() && 0 <= i < |data| && data[i].JObj?
      requires TagOf(data[i].entries) == SetTag && payload == Lookup(data[i].entries, "$s")
      requires i in cache && cache[i] == Box(SetObj([]))
      modifies this
      decreases Unvisited(), 5
      ensures Valid() && Unvisited() <= old(Unvisited())
      ensures i in cache && cache[i].Box?
      ensures Extends(old(cache) - {i}, cache)
      ensures ok ==> CompleteBeyond(data, compiles, old(cache) - {i}, cache)
      ensures !ok ==> exists j :: 0 <= j < |data| && (j !in old(cache) || j == i) && Raises(data, compiles, data[j])
      ensures !ok ==> Unhydratable(data, compiles, i)
    {
      var members := Iterate(payload);
      if members.None? {
        assert Raises(data, compiles, data[i]);
        RaisesUnhydratable(data, compiles, i);
        return false;
      }
      var xs := members.value;
      var n := |data|;
      var elems: seq<HVal> := [];
      var k := 0;
      while k < |xs|
        invariant 0 <= k <= |xs|
        invariant Valid() && Unvisited() <= old(Unvisited())
        invariant i in cache && cache[i] == Box(SetObj(elems))
        invariant Extends(old(cache) - {i}, cache)
        invariant AllCached(n, xs[..k], cache)
        invariant SetBuild(RefAll(n, xs[..k], cache)) == Some(elems)
        invariant CompleteBeyond(data, compiles, old(cache), cache)
      {
        ghost var before := cache;
        var h := Hydrate(xs[k]);
        if h.Raised? {
          SetMemberUnhydratable(data, compiles, i, xs, k);
          return false;
        }
        if !Hashable(h.v) {
          SetMemberRaises(data, compiles, cache, i, xs, k);
          return false;
        }
        SetAdvance(data, compiles, old(cache), before, cache, i, xs, k, elems, h.v);
        elems := SetAdd(elems, h.v);
        RefillSameUnvisited(|data|, cache, i, Box(SetObj(elems)));
        cache := cache[i := Box(SetObj(elems))];
        k := k + 1;
      }
      assert xs[..k] == xs;
      SetFinish(data, compiles, old(cache), cache, i, xs, elems);
      return true;
    }

    /** Unpack each pair of the `$m` payload in turn, hydrate its key and then
        its value, and store them in the map at slot `i`. */
    method HydrateMap(i: int, payload: Json) returns (ok: bool)
      requires Valid() && 0 <= i < |data| && data[i].JObj?
      requires TagOf(data[i].entries) == MapTag && payload == Lookup(data[i].entries, "$m")
      requires i in cache && cache[i] == Box(MapObj([]))
      modifies this
      decreases Unvisited(), 6
      ensures Valid() && Unvisited() <= old(Unvisited())
      ensures i in cache && cache[i].Box?
      ensures Extends(old(cache) - {i}, cache)
      ensures ok ==> CompleteBeyond(data, compiles, old(cache) - {i}, cache)
      ensures !ok ==> exists j :: 0 <= j < |data| && (j !in old(cache) || j == i) && Raises(data, compiles, data[j])
      ensures !ok ==> Unhydratable(data, compiles, i)
    {
      var items := Iterate(payload);
      if items.None? {
        assert Raises(data, compiles, data[i]);
        RaisesUnhydratable(data, compiles, i);
        return false;
      }
      var ps := items.value;
      var pairs: seq<(HVal, HVal)> := [];
      ghost var kvs: seq<(Json, Json)> := [];
      var k := 0;
      while k < |ps|
        invariant 0 <= k <= |ps|
        invariant Valid() && Unvisited() <= old(Unvisited())
        invariant i in cache && cache[i] == Box(MapObj(pairs))
        invariant Extends(old(cache) - {i}, cache)
        invariant UnpackAll(ps[..k]) == Some(kvs)
        invariant PairsCached(|data|, kvs, cache)
        invariant MapBuild(RefPairs(|data|, kvs, cache)) == Some(pairs)
        invariant CompleteBeyond(data, compiles, old(cache), cache)
      {
        var stored;
        stored, pairs, kvs := HydrateMapItem(i, ps, k, pairs, kvs, old(cache));
        if !stored {
          return false;
        }
        k := k + 1;
      }
      assert ps[..k] == ps;
      MapFinish(data, compiles, old(cache), cache, i, ps, kvs, pairs);
      return true;
    }

    /** Item `k` of the `$m` payload of slot `i`: unpack it, hydrate its key
        and then its value, and store them in the map, which so far holds the
        first `k` pairs.  `c0` is the cache before the map was created. */
    method HydrateMapItem(i: int, ps: seq<Json>, k: int, pairs: seq<(HVal, HVal)>,
                          ghost kvs: seq<(Json, Json)>, ghost c0: map<int, Cached>)
      returns (ok: bool, pairs': seq<(HVal, HVal)>, ghost kvs': seq<(Json, Json)>)
      requires Valid() && 0 <= i < |data| && data[i].JObj? && TagOf(data[i].entries) == MapTag
      requires Iterate(Lookup(data[i].entries, "$m")) == Some(ps) && 0 <= k < |ps|
      requires i in c0 && i in cache && cache[i] == Box(MapObj(pairs))
      requires Extends(c0 - {i}, cache)
      requires UnpackAll(ps[..k]) == Some(kvs) && PairsCached(|data|, kvs, cache)
      requires MapBuild(RefPairs(|data|, kvs, cache)) == Some(pairs)
      requires CompleteBeyond(data, compiles, c0, cache)
      modifies this
      decreases Unvisited(), 5
      ensures Valid() && Unvisited() <= old(Unvisited())
      ensures i in cache && cache[i].Box?
      ensures Extends(c0 - {i}, cache)
      ensures ok ==> cache[i] == Box(MapObj(pairs')) && UnpackAll(ps[..k + 1]) == Some(kvs')
      ensures ok ==> PairsCached(|data|, kvs', cache) && MapBuild(RefPairs(|data|, kvs', cache)) == Some(pairs')
      ensures ok ==> CompleteBeyond(data, compiles, c0, cache)
      ensures !ok ==> exists j :: 0 <= j < |data| && (j !in c0 || j == i) && Raises(data, compiles, data[j])
      ensures !ok ==> Unhydratable(data, compiles, i)
    {
      pairs', kvs' := pairs, kvs;
      var kv := Unpack2(ps[k]);
      if kv.None? {
        MapItemRaises(data, compiles, cache, i, ps, k);
        return false, pairs', kvs';
      }
      ghost var before := cache;
      var h := HydratePair(kv.value.0, kv.value.1);
      if h.None? {
        MapPartUnhydratable(data, compiles, i, ps, k);
        return false, pairs', kvs';
      }
      var (hk, hv) := h.value;
      if !Hashable(hk) {
        MapItemRaises(data, compiles, cache, i, ps, k);
        return false, pairs', kvs';
      }
      UnpackStep(ps, k, kvs);
      MapAdvance(data, compiles, c0, before, cache, i, kvs, kv.value, pairs, hk, hv);
      pairs' := MapPut(pairs, hk, hv);
      kvs' := kvs + [kv.value];
      RefillSameUnvisited(|data|, cache, i, Box(MapObj(pairs')));
      cache := cache[i := Box(MapObj(pairs'))];
      ok := true;
    }

    /** Hydrate the key and then the value of one `$m` pair. */
    method HydratePair(kx: Json, vx: Json) returns (r: Option<(HVal, HVal)>)
      requires Valid()
      modifies this
      decreases Unvisited(), 4
      ensures Valid() && Unvisited() <= old(Unvisited())
      ensures Extends(old(cache), cache)
      ensures r.Some? ==> RefCached(|data|, kx, cache) && RefCached(|data|, vx, cache)
      ensures r.Some? ==> r.value == (Ref(|data|, kx, cache), Ref(|data|, vx, cache))
      ensures r.Some? ==> CompleteBeyond(data, compiles, old(cache), cache)
      ensures r.None? ==> exists j :: 0 <= j < |data| && j !in old(cache) && Raises(data, compiles, data[j])
      ensures r.None? ==> || (InRange(|data|, kx) && Unhydratable(data, compiles, AsIndex(kx).value))
                          || (InRange(|data|, vx) && Unhydratable(data, compiles, AsIndex(vx).value))
    {
      var hk := Hydrate(kx);
      if hk.Raised? {
        return None;
      }
      ghost var between := cache;
      var hv := Hydrate(vx);
      if hv.Raised? {
        return None;
      }
      UntouchedKeeps(between, cache);
      RefKept(|data|, kx, between, cache);
      CompleteBeyondGrow(data, compiles, old(cache), between, cache);
      return Some((hk.v, hv.v));
    }

    /** Store the hydrated value of every entry of the plain dict at slot `i`
        under its key. */
    method HydrateDict(i: int, es: seq<(string, Json)>) returns (ok: bool)
      requires Valid() && 0 <= i < |data| && data[i] == JObj(es) && TagOf(es) == PlainTag
      requires i in cache && cache[i] == Box(DictObj([]))
      modifies this
      decreases Unvisited(), 5
      ensures Valid() && Unvisited() <= old(Unvisited())
      ensures i in cache && cache[i].Box?
      ensures Extends(old(cache) - {i}, cache)
      ensures ok ==> CompleteBeyond(data, compiles, old(cache) - {i}, cache)
      ensures !ok ==> exists j :: 0 <= j < |data| && j !in old(cache) && Raises(data, compiles, data[j])
      ensures !ok ==> Unhydratable(data, compiles, i)
    {
      var n := |data|;
      var entries: seq<(string, HVal)> := [];
      var k := 0;
      while k < |es|
        invariant 0 <= k <= |es|
        invariant Valid() && Unvisited() <= old(Unvisited())
        invariant i in cache && cache[i] == Box(DictObj(entries))
        invariant Extends(old(cache) - {i}, cache)
        invariant EntriesCached(n, es[..k], cache)
        invariant entries == DictBuild(RefEntries(n, es[..k], cache))
        invariant CompleteBeyond(data, compiles, old(cache), cache)
      {
        ghost var before := cache;
        var h := Hydrate(es[k].1);
        if h.Raised? {
          DictValueUnhydratable(data, compiles, i, k);
          return false;
        }
        DictAdvance(data, compiles, old(cache), before, cache, i, es, k, entries, h.v);
        entries := DictPut(entries, es[k].0, h.v);
        RefillSameUnvisited(|data|, cache, i, Box(DictObj(entries)));
        StoreConsistent(data, compiles, cache, i, Box(DictObj(entries)));
        cache := cache[i := Box(DictObj(entries))];
        k := k + 1;
      }
      assert es[..k] == es;
      DictFinish(data, compiles, old(cache), cache, i, entries);
      return true;
    }
  }
}
