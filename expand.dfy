/** What hydrating one slot of the serialized array must produce, stated one
    level deep: the slot's own entry is built from the values its children
    resolve to in the cache.  The hydrator is proved to leave every slot it
    expands in this state. */
module Expansion {
  import opened JsonValues
  import opened Hydrated
  import opened SpecialValues

  /** `isinstance(x, int)`: every int, and every bool (True is 1, False is 0),
      is a slot reference; anything else is a literal. */
  function AsIndex(x: Json): Option<int>
  {
    match x
    case JInt(i) => Some(i)
    case JBool(b) => Some(if b then 1 else 0)
    case _ => None
  }

  /** The slot `x` refers to, if it is a reference within an array of length `n`. */
  predicate InRange(n: nat, x: Json)
  {
    AsIndex(x).Some? && 0 <= AsIndex(x).value < n
  }

  /** If `x` refers to a slot of the array, that slot is cached. */
  predicate RefCached(n: nat, x: Json, c: map<int, Cached>)
  {
    InRange(n, x) ==> AsIndex(x).value in c
  }

  /** The value hydrating argument `x` yields once the slot it names is cached:
      a literal as is, an out-of-range reference as `None`, a reference as the
      slot's cached value (its container when the slot holds one). */
  function Ref(n: nat, x: Json, c: map<int, Cached>): HVal
  {
    match AsIndex(x)
    case None => Plain(x)
    case Some(i) => if 0 <= i < n && i in c then Resolve(i, c[i]) else Plain(JNull)
  }

  predicate AllCached(n: nat, xs: seq<Json>, c: map<int, Cached>)
  {
    forall k :: 0 <= k < |xs| ==> RefCached(n, xs[k], c)
  }

  function RefAll(n: nat, xs: seq<Json>, c: map<int, Cached>): (r: seq<HVal>)
    ensures |r| == |xs|
    ensures forall k :: 0 <= k < |xs| ==> r[k] == Ref(n, xs[k], c)
  {
    seq(|xs|, k requires 0 <= k < |xs| => Ref(n, xs[k], c))
  }

  predicate PairsCached(n: nat, kvs: seq<(Json, Json)>, c: map<int, Cached>)
  {
    forall k :: 0 <= k < |kvs| ==> RefCached(n, kvs[k].0, c) && RefCached(n, kvs[k].1, c)
  }

  function RefPairs(n: nat, kvs: seq<(Json, Json)>, c: map<int, Cached>): (r: seq<(HVal, HVal)>)
    ensures |r| == |kvs|
    ensures forall k :: 0 <= k < |kvs| ==> r[k] == (Ref(n, kvs[k].0, c), Ref(n, kvs[k].1, c))
  {
    seq(|kvs|, k requires 0 <= k < |kvs| => (Ref(n, kvs[k].0, c), Ref(n, kvs[k].1, c)))
  }

  predicate EntriesCached(n: nat, es: seq<(string, Json)>, c: map<int, Cached>)
  {
    forall k :: 0 <= k < |es| ==> RefCached(n, es[k].1, c)
  }

  function RefEntries(n: nat, es: seq<(string, Json)>, c: map<int, Cached>): (r: seq<(string, HVal)>)
    ensures |r| == |es|
    ensures forall k :: 0 <= k < |es| ==> r[k] == (es[k].0, Ref(n, es[k].1, c))
  {
    seq(|es|, k requires 0 <= k < |es| => (es[k].0, Ref(n, es[k].1, c)))
  }

  /** `key_index, value_index = pair`: exactly two items, characters or keys;
      anything else raises (`None`). */
  function Unpack2(p: Json): Option<(Json, Json)>
  {
    match p
    case JArr(xs) => if |xs| == 2 then Some((xs[0], xs[1])) else None
    case JStr(s) => if |s| == 2 then Some((JStr([s[0]]), JStr([s[1]]))) else None
    case JObj(es) => if |es| == 2 then Some((JStr(es[0].0), JStr(es[1].0))) else None
    case _ => None
  }

  /** Every pair of a `$m` payload unpacked, in order; `None` if one fails. */
  function UnpackAll(ps: seq<Json>): (r: Option<seq<(Json, Json)>>)
    ensures r.Some? ==> |r.value| == |ps|
  {
    if ps == [] then Some([])
    else
      var prev := UnpackAll(ps[..|ps| - 1]);
      var last := Unpack2(ps[|ps| - 1]);
      if prev.None? || last.None? then None
      else Some(prev.value + [last.value])
  }

  /** The pairs are unpacked in order, and unpacking fails exactly when one
      item is not a pair. */
  lemma {:induction false} UnpackAllPairs(ps: seq<Json>)
    ensures UnpackAll(ps).Some? ==> forall k :: 0 <= k < |ps| ==> Unpack2(ps[k]) == Some(UnpackAll(ps).value[k])
    ensures UnpackAll(ps).None? <==> exists k :: 0 <= k < |ps| && Unpack2(ps[k]).None?
  {
    if ps != [] {
      var init := ps[..|ps| - 1];
      UnpackAllPairs(init);
      if UnpackAll(init).None? {
        var k :| 0 <= k < |init| && Unpack2(init[k]).None?;
        assert Unpack2(ps[k]).None?;
      } else if UnpackAll(ps).Some? {
        forall k | 0 <= k < |ps| ensures Unpack2(ps[k]) == Some(UnpackAll(ps).value[k]) {
          if k < |init| {
            assert ps[k] == init[k];
          }
        }
      }
    }
  }

  /** The cache entry hydrating the slot holding `raw` must end with, given the
      cache its children resolve in; `None` when the expansion raises. */
  function Expand(n: nat, compiles: string -> bool, raw: Json, c: map<int, Cached>): Option<Cached>
  {
    match raw
    case JArr(items) => Some(Box(ListObj(RefAll(n, items, c))))
    case JObj(es) =>
      (match TagOf(es)
       case DateTag => Some(Scalar(DecodeDate(raw, Lookup(es, "$d"))))
       case SetTag =>
         (match Iterate(Lookup(es, "$s"))
          case None => None
          case Some(xs) =>
            (match SetBuild(RefAll(n, xs, c))
             case None => None
             case Some(elems) => Some(Box(SetObj(elems)))))
       case MapTag =>
         (match Iterate(Lookup(es, "$m"))
          case None => None
          case Some(ps) =>
            (match UnpackAll(ps)
             case None => None
             case Some(kvs) =>
               (match MapBuild(RefPairs(n, kvs, c))
                case None => None
                case Some(pairs) => Some(Box(MapObj(pairs))))))
       case BigIntTag =>
         (match DecodeBigInt(raw, Lookup(es, "$b"))
          case None => None
          case Some(h) => Some(Scalar(h)))
       case RegExpTag => Some(Scalar(DecodeRegExp(raw, Lookup(es, "$r"), compiles)))
       case PlainTag => Some(Box(DictObj(DictBuild(RefEntries(n, es, c))))))
    case _ => Some(Scalar(Plain(raw)))
  }

  /** Every slot the expansion of `raw` dereferences is cached. */
  predicate ChildrenCached(n: nat, raw: Json, c: map<int, Cached>)
  {
    match raw
    case JArr(items) => AllCached(n, items, c)
    case JObj(es) =>
      (match TagOf(es)
       case SetTag =>
         Iterate(Lookup(es, "$s")).Some? ==> AllCached(n, Iterate(Lookup(es, "$s")).value, c)
       case MapTag =>
         Iterate(Lookup(es, "$m")).Some? && UnpackAll(Iterate(Lookup(es, "$m")).value).Some? ==>
           PairsCached(n, UnpackAll(Iterate(Lookup(es, "$m")).value).value, c)
       case PlainTag => EntriesCached(n, es, c)
       case _ => true)
    case _ => true
  }

  /** `c2` keeps every slot of `c1`, and each still resolves to the same value
      (a container may have grown, but it is the same container). */
  predicate Keeps(c1: map<int, Cached>, c2: map<int, Cached>)
  {
    forall j :: j in c1 ==> j in c2 && Resolve(j, c1[j]) == Resolve(j, c2[j])
  }

  /** Slot `j` has been fully hydrated: its entry is the expansion of `data[j]`
      over the values its children resolve to. */
  predicate Complete(data: seq<Json>, compiles: string -> bool, j: int, c: map<int, Cached>)
  {
    && 0 <= j < |data|
    && j in c
    && ChildrenCached(|data|, data[j], c)
    && Expand(|data|, compiles, data[j], c) == Some(c[j])
  }

  /** Every cached slot is fully hydrated: the state one hydration run leaves. */
  predicate Sound(data: seq<Json>, compiles: string -> bool, c: map<int, Cached>)
  {
    forall j {:trigger Complete(data, compiles, j, c)} :: j in c ==> Complete(data, compiles, j, c)
  }

  /** Whether the value a slot holding `raw` hydrates to can be hashed.  A
      list, set, map or plain dict slot hydrates to a container, which cannot;
      a date, big integer or regular expression slot hydrates to a value that
      does not depend on any other slot; any other slot is a hashable literal. */
  predicate SlotHashable(compiles: string -> bool, raw: Json)
  {
    match raw
    case JArr(_) => false
    case JObj(es) =>
      (match TagOf(es)
       case DateTag => Hashable(DecodeDate(raw, Lookup(es, "$d")))
       case BigIntTag =>
         DecodeBigInt(raw, Lookup(es, "$b")).Some? ==> Hashable(DecodeBigInt(raw, Lookup(es, "$b")).value)
       case RegExpTag => Hashable(DecodeRegExp(raw, Lookup(es, "$r"), compiles))
       case _ => false)
    case _ => true
  }

  /** Whether the value argument `x` hydrates to can be hashed: a literal by
      its own type, an out-of-range reference (`None`) always, a reference by
      the slot it names. */
  predicate Hashes(data: seq<Json>, compiles: string -> bool, x: Json)
  {
    match AsIndex(x)
    case None => Hashable(Plain(x))
    case Some(t) => 0 <= t < |data| ==> SlotHashable(compiles, data[t])
  }

  /** Whether hydrating the slot holding `raw` raises on its own account:
      `int()` of a `$b` payload of the wrong type, a `$s` or `$m` payload that
      cannot be iterated, a `$m` item that is not a pair, or a set member or
      map key whose hydrated value cannot be hashed. */
  predicate Raises(data: seq<Json>, compiles: string -> bool, raw: Json)
  {
    raw.JObj? &&
    match TagOf(raw.entries)
    case BigIntTag => DecodeBigInt(raw, Lookup(raw.entries, "$b")).None?
    case SetTag =>
      (match Iterate(Lookup(raw.entries, "$s"))
       case None => true
       case Some(xs) => exists k :: 0 <= k < |xs| && !Hashes(data, compiles, xs[k]))
    case MapTag =>
      (match Iterate(Lookup(raw.entries, "$m"))
       case None => true
       case Some(ps) =>
         exists k :: 0 <= k < |ps| &&
           (Unpack2(ps[k]).None? || !Hashes(data, compiles, Unpack2(ps[k]).value.0)))
    case _ => false
  }

  /** Every cached slot can be hashed exactly when its slot says so: the
      invariant that lets `Hashes` speak for a cached reference. */
  predicate HashConsistent(data: seq<Json>, compiles: string -> bool, c: map<int, Cached>)
  {
    forall j :: j in c && 0 <= j < |data| ==> Hashable(Resolve(j, c[j])) == SlotHashable(compiles, data[j])
  }

  /** A cached reference can be hashed exactly when `Hashes` says so. */
  lemma RefHashes(data: seq<Json>, compiles: string -> bool, x: Json, c: map<int, Cached>)
    requires HashConsistent(data, compiles, c) && RefCached(|data|, x, c)
    ensures Hashable(Ref(|data|, x, c)) == Hashes(data, compiles, x)
  {
  }

  /** The expansion of a slot can be hashed exactly when the slot says so. */
  lemma ExpandHashable(n: nat, compiles: string -> bool, raw: Json, c: map<int, Cached>, e: Cached, i: int)
    requires Expand(n, compiles, raw, c) == Some(e)
    ensures Hashable(Resolve(i, e)) == SlotHashable(compiles, raw)
  {
  }

  /** Storing in slot `i` an entry whose hashability agrees with the slot
      keeps the cache consistent. */
  lemma StoreConsistent(data: seq<Json>, compiles: string -> bool, c: map<int, Cached>, i: int, e: Cached)
    requires HashConsistent(data, compiles, c) && 0 <= i < |data|
    requires Hashable(Resolve(i, e)) == SlotHashable(compiles, data[i])
    ensures HashConsistent(data, compiles, c[i := e])
  {
  }

  /** The expansion of a slot whose children are cached in a consistent cache
      fails exactly when the slot raises on its own account. */
  lemma {:induction false} ExpandFailsIffRaises(data: seq<Json>, compiles: string -> bool, raw: Json, c: map<int, Cached>)
    requires ChildrenCached(|data|, raw, c) && HashConsistent(data, compiles, c)
    ensures Expand(|data|, compiles, raw, c).None? <==> Raises(data, compiles, raw)
  {
    var n := |data|;
    if raw.JObj? {
      var es := raw.entries;
      match TagOf(es)
      case SetTag =>
        if Iterate(Lookup(es, "$s")).Some? {
          var xs := Iterate(Lookup(es, "$s")).value;
          var hs := RefAll(n, xs, c);
          forall k | 0 <= k < |xs| ensures Hashable(hs[k]) == Hashes(data, compiles, xs[k]) {
            RefHashes(data, compiles, xs[k], c);
          }
        }
      case MapTag =>
        if Iterate(Lookup(es, "$m")).Some? {
          var ps := Iterate(Lookup(es, "$m")).value;
          UnpackAllPairs(ps);
          if UnpackAll(ps).Some? {
            var kvs := UnpackAll(ps).value;
            var hs := RefPairs(n, kvs, c);
            forall k | 0 <= k < |ps|
              ensures Hashable(hs[k].0) == Hashes(data, compiles, Unpack2(ps[k]).value.0)
            {
              RefHashes(data, compiles, kvs[k].0, c);
            }
          }
        }
      case _ =>
    }
  }

  // ---------------------------------------------------------------------------
  // Slots whose hydration raises: no fully hydrated cache can hold them.

  /** No fully hydrated cache holds slot `i`: hydrating it cannot succeed,
      since the slot itself or a slot its hydration reaches raises. */
  ghost predicate Unhydratable(data: seq<Json>, compiles: string -> bool, i: int)
  {
    forall h :: Sound(data, compiles, h) ==> i !in h
  }

  /** Every slot of a fully hydrated cache hashes as its slot says. */
  lemma SoundConsistent(data: seq<Json>, compiles: string -> bool, h: map<int, Cached>)
    requires Sound(data, compiles, h)
    ensures HashConsistent(data, compiles, h)
  {
    forall j | j in h && 0 <= j < |data|
      ensures Hashable(Resolve(j, h[j])) == SlotHashable(compiles, data[j])
    {
      assert Complete(data, compiles, j, h);
      ExpandHashable(|data|, compiles, data[j], h, h[j], j);
    }
  }

  /** A slot that raises on its own account is never fully hydrated. */
  lemma {:induction false} RaisesUnhydratable(data: seq<Json>, compiles: string -> bool, i: int)
    requires 0 <= i < |data| && Raises(data, compiles, data[i])
    ensures Unhydratable(data, compiles, i)
  {
    forall h | Sound(data, compiles, h) ensures i !in h {
      SoundSlotNoRaise(data, compiles, h, i);
    }
  }

  /** No slot of a fully hydrated cache raises on its own account. */
  lemma SoundSlotNoRaise(data: seq<Json>, compiles: string -> bool, h: map<int, Cached>, i: int)
    requires Sound(data, compiles, h) && 0 <= i < |data|
    ensures i in h ==> !Raises(data, compiles, data[i])
  {
    if i in h {
      assert Complete(data, compiles, i, h);
      SoundConsistent(data, compiles, h);
      ExpandFailsIffRaises(data, compiles, data[i], h);
    }
  }

  /** A list whose item refers to a slot that is never fully hydrated is never
      fully hydrated either. */
  lemma {:induction false} ListItemUnhydratable(data: seq<Json>, compiles: string -> bool, i: int, k: int)
    requires 0 <= i < |data| && data[i].JArr? && 0 <= k < |data[i].items|
    requires InRange(|data|, data[i].items[k]) && Unhydratable(data, compiles, AsIndex(data[i].items[k]).value)
    ensures Unhydratable(data, compiles, i)
  {
    forall h | Sound(data, compiles, h) ensures i !in h {
      assert i in h ==> RefCached(|data|, data[i].items[k], h) by {
        if i in h {
          assert Complete(data, compiles, i, h);
        }
      }
    }
  }

  /** A set whose member refers to a slot that is never fully hydrated is
      never fully hydrated either. */
  lemma {:induction false} SetMemberUnhydratable(data: seq<Json>, compiles: string -> bool, i: int, xs: seq<Json>, k: int)
    requires 0 <= i < |data| && data[i].JObj? && TagOf(data[i].entries) == SetTag
    requires Iterate(Lookup(data[i].entries, "$s")) == Some(xs) && 0 <= k < |xs|
    requires InRange(|data|, xs[k]) && Unhydratable(data, compiles, AsIndex(xs[k]).value)
    ensures Unhydratable(data, compiles, i)
  {
    forall h | Sound(data, compiles, h) ensures i !in h {
      assert i in h ==> RefCached(|data|, xs[k], h) by {
        if i in h {
          assert Complete(data, compiles, i, h);
        }
      }
    }
  }

  /** A map one of whose pairs has a key or a value referring to a slot that
      is never fully hydrated is never fully hydrated either. */
  lemma {:induction false} MapPartUnhydratable(data: seq<Json>, compiles: string -> bool, i: int, ps: seq<Json>, k: int)
    requires 0 <= i < |data| && data[i].JObj? && TagOf(data[i].entries) == MapTag
    requires Iterate(Lookup(data[i].entries, "$m")) == Some(ps) && 0 <= k < |ps| && Unpack2(ps[k]).Some?
    requires var (kx, vx) := Unpack2(ps[k]).value;
      || (InRange(|data|, kx) && Unhydratable(data, compiles, AsIndex(kx).value))
      || (InRange(|data|, vx) && Unhydratable(data, compiles, AsIndex(vx).value))
    ensures Unhydratable(data, compiles, i)
  {
    UnpackAllPairs(ps);
    if UnpackAll(ps).None? {
      RaisesUnhydratable(data, compiles, i);
    } else {
      var kv := UnpackAll(ps).value[k];
      assert kv == Unpack2(ps[k]).value;
      forall h | Sound(data, compiles, h) ensures i !in h {
        assert i in h ==> RefCached(|data|, kv.0, h) && RefCached(|data|, kv.1, h) by {
          if i in h {
            assert Complete(data, compiles, i, h);
          }
        }
      }
    }
  }

  /** A dict one of whose values refers to a slot that is never fully
      hydrated is never fully hydrated either. */
  lemma {:induction false} DictValueUnhydratable(data: seq<Json>, compiles: string -> bool, i: int, k: int)
    requires 0 <= i < |data| && data[i].JObj? && TagOf(data[i].entries) == PlainTag
    requires 0 <= k < |data[i].entries|
    requires InRange(|data|, data[i].entries[k].1) && Unhydratable(data, compiles, AsIndex(data[i].entries[k].1).value)
    ensures Unhydratable(data, compiles, i)
  {
    forall h | Sound(data, compiles, h) ensures i !in h {
      assert i in h ==> RefCached(|data|, data[i].entries[k].1, h) by {
        if i in h {
          assert Complete(data, compiles, i, h);
        }
      }
    }
  }

  /** The slots of an array of length `n` that `c` does not hold yet. */
  ghost function UnvisitedOf(n: nat, c: map<int, Cached>): set<int>
  {
    set j | 0 <= j < n && j !in c
  }

  /** Caching a new slot of the array leaves fewer slots to visit. */
  lemma {:induction false} VisitShrinks(n: nat, c: map<int, Cached>, i: int, e: Cached)
    requires 0 <= i < n && i !in c
    ensures UnvisitedOf(n, c[i := e]) < UnvisitedOf(n, c)
  {
    assert i in UnvisitedOf(n, c) && i !in UnvisitedOf(n, c[i := e]);
  }

  /** Replacing the entry of a cached slot leaves the slots to visit as they are. */
  lemma {:induction false} RefillSameUnvisited(n: nat, c: map<int, Cached>, i: int, e: Cached)
    requires i in c
    ensures UnvisitedOf(n, c[i := e]) == UnvisitedOf(n, c)
  {
  }

  /** `c2` has every entry of `c1`, unchanged. */
  predicate Extends(c1: map<int, Cached>, c2: map<int, Cached>)
  {
    forall j :: j in c1 ==> j in c2 && c2[j] == c1[j]
  }

  /** Every slot `c` holds beyond those of `c0` is fully hydrated. */
  predicate CompleteBeyond(data: seq<Json>, compiles: string -> bool, c0: map<int, Cached>, c: map<int, Cached>)
  {
    forall j {:trigger Complete(data, compiles, j, c)} :: j in c && j !in c0 ==> Complete(data, compiles, j, c)
  }

  // ---------------------------------------------------------------------------
  // Stability: growing the cache does not change what a hydrated slot holds.

  lemma RefKept(n: nat, x: Json, c1: map<int, Cached>, c2: map<int, Cached>)
    requires RefCached(n, x, c1) && Keeps(c1, c2)
    ensures RefCached(n, x, c2) && Ref(n, x, c1) == Ref(n, x, c2)
  {
  }

  lemma AllKept(n: nat, xs: seq<Json>, c1: map<int, Cached>, c2: map<int, Cached>)
    requires AllCached(n, xs, c1) && Keeps(c1, c2)
    ensures AllCached(n, xs, c2) && RefAll(n, xs, c1) == RefAll(n, xs, c2)
  {
    forall k | 0 <= k < |xs|
      ensures RefCached(n, xs[k], c2) && RefAll(n, xs, c1)[k] == RefAll(n, xs, c2)[k]
    {
      RefKept(n, xs[k], c1, c2);
    }
  }

  lemma PairsKept(n: nat, kvs: seq<(Json, Json)>, c1: map<int, Cached>, c2: map<int, Cached>)
    requires PairsCached(n, kvs, c1) && Keeps(c1, c2)
    ensures PairsCached(n, kvs, c2) && RefPairs(n, kvs, c1) == RefPairs(n, kvs, c2)
  {
    forall k | 0 <= k < |kvs|
      ensures RefCached(n, kvs[k].0, c2) && RefCached(n, kvs[k].1, c2)
      ensures RefPairs(n, kvs, c1)[k] == RefPairs(n, kvs, c2)[k]
    {
      RefKept(n, kvs[k].0, c1, c2);
      RefKept(n, kvs[k].1, c1, c2);
    }
  }

  lemma EntriesKept(n: nat, es: seq<(string, Json)>, c1: map<int, Cached>, c2: map<int, Cached>)
    requires EntriesCached(n, es, c1) && Keeps(c1, c2)
    ensures EntriesCached(n, es, c2) && RefEntries(n, es, c1) == RefEntries(n, es, c2)
  {
    forall k | 0 <= k < |es|
      ensures RefCached(n, es[k].1, c2) && RefEntries(n, es, c1)[k] == RefEntries(n, es, c2)[k]
    {
      RefKept(n, es[k].1, c1, c2);
    }
  }

  /** The expansion of a slot whose children are cached is the same in any
      cache that keeps those children. */
  lemma ExpandKept(n: nat, compiles: string -> bool, raw: Json, c1: map<int, Cached>, c2: map<int, Cached>)
    requires ChildrenCached(n, raw, c1) && Keeps(c1, c2)
    ensures ChildrenCached(n, raw, c2)
    ensures Expand(n, compiles, raw, c1) == Expand(n, compiles, raw, c2)
  {
    match raw
    case JArr(items) => AllKept(n, items, c1, c2);
    case JObj(es) =>
      match TagOf(es) {
        case SetTag =>
          if Iterate(Lookup(es, "$s")).Some? {
            AllKept(n, Iterate(Lookup(es, "$s")).value, c1, c2);
          }
        case MapTag =>
          var it := Iterate(Lookup(es, "$m"));
          if it.Some? && UnpackAll(it.value).Some? {
            PairsKept(n, UnpackAll(it.value).value, c1, c2);
          }
        case PlainTag => EntriesKept(n, es, c1, c2);
        case _ =>
      }
    case _ =>
  }

  /** A fully hydrated slot stays fully hydrated while the cache grows and its
      own entry is left alone. */
  lemma CompleteKept(data: seq<Json>, compiles: string -> bool, j: int, c1: map<int, Cached>, c2: map<int, Cached>)
    requires Complete(data, compiles, j, c1) && Keeps(c1, c2)
    requires j in c2 && c2[j] == c1[j]
    ensures Complete(data, compiles, j, c2)
  {
    ExpandKept(|data|, compiles, data[j], c1, c2);
  }

  /** Caching a new slot, and then anything that leaves the other entries
      untouched, extends the cache. */
  lemma StoreExtends(c0: map<int, Cached>, i: int, e: Cached, c: map<int, Cached>)
    requires i !in c0 && Extends(c0[i := e] - {i}, c)
    ensures Extends(c0, c)
  {
    assert forall j :: j in c0 ==> j in c0[i := e] - {i};
  }

  /** A cache whose old entries are untouched keeps them. */
  lemma UntouchedKeeps(c1: map<int, Cached>, c2: map<int, Cached>)
    requires forall j :: j in c1 ==> j in c2 && c2[j] == c1[j]
    ensures Keeps(c1, c2)
  {
  }

  /** Replacing a container by a grown version of it keeps every slot. */
  lemma RefillKeeps(c: map<int, Cached>, i: int, o: Obj)
    requires i in c && c[i].Box?
    ensures Keeps(c, c[i := Box(o)])
  {
  }

  /** A nested hydration that completes what it adds keeps the slots completed
      before it complete. */
  lemma {:induction false} CompleteBeyondGrow(data: seq<Json>, compiles: string -> bool, c0: map<int, Cached>, c1: map<int, Cached>, c2: map<int, Cached>)
    requires CompleteBeyond(data, compiles, c0, c1) && Extends(c1, c2)
    requires CompleteBeyond(data, compiles, c1, c2)
    ensures CompleteBeyond(data, compiles, c0, c2)
  {
    UntouchedKeeps(c1, c2);
    forall j | j in c2 && j !in c0 ensures Complete(data, compiles, j, c2) {
      if j in c1 {
        CompleteKept(data, compiles, j, c1, c2);
      }
    }
  }

  /** Growing a container of a slot that was cached before keeps the slots
      completed since complete. */
  lemma {:induction false} CompleteBeyondRefill(data: seq<Json>, compiles: string -> bool, c0: map<int, Cached>, c: map<int, Cached>, i: int, o: Obj)
    requires CompleteBeyond(data, compiles, c0, c) && i in c0 && i in c && c[i].Box?
    ensures CompleteBeyond(data, compiles, c0, c[i := Box(o)])
  {
    RefillKeeps(c, i, o);
    forall j | j in c[i := Box(o)] && j !in c0 ensures Complete(data, compiles, j, c[i := Box(o)]) {
      CompleteKept(data, compiles, j, c, c[i := Box(o)]);
    }
  }

  // ---------------------------------------------------------------------------
  // What a fully hydrated slot holds.

  /** Only containers are boxed: a scalar entry is never a container reference. */
  lemma {:induction false} ExpandScalar(n: nat, compiles: string -> bool, raw: Json, c: map<int, Cached>)
    requires Expand(n, compiles, raw, c).Some? && Expand(n, compiles, raw, c).value.Scalar?
    ensures !Expand(n, compiles, raw, c).value.v.Node?
    ensures raw.JObj? || Expand(n, compiles, raw, c).value == Scalar(Plain(raw))
  {
    match raw
    case JObj(es) =>
      if TagOf(es) == BigIntTag {
        assert DecodeBigInt(raw, Lookup(es, "$b")).Some?;
      }
    case _ =>
  }

  /** A primitive slot (None, a string, a bool or a number, an int included) is
      cached and returned as stored; its value is not dereferenced again. */
  lemma PrimitiveSlot(data: seq<Json>, compiles: string -> bool, j: int, c: map<int, Cached>)
    requires Complete(data, compiles, j, c)
    requires !data[j].JArr? && !data[j].JObj?
    ensures c[j] == Scalar(Plain(data[j]))
    ensures Resolve(j, c[j]) == Plain(data[j])
  {
  }

  /** A list slot holds a list of the same length whose k-th item is what the
      k-th raw item refers to. */
  lemma ListSlot(data: seq<Json>, compiles: string -> bool, j: int, c: map<int, Cached>)
    requires Complete(data, compiles, j, c) && data[j].JArr?
    ensures c[j].Box? && c[j].obj.ListObj?
    ensures |c[j].obj.items| == |data[j].items|
    ensures forall k :: 0 <= k < |data[j].items| ==>
      c[j].obj.items[k] == Ref(|data|, data[j].items[k], c)
  {
  }

  /** A plain dict slot (no marker key) with distinct keys holds a dict with the
      same keys in the same order, each value hydrated. */
  lemma DictSlot(data: seq<Json>, compiles: string -> bool, j: int, c: map<int, Cached>)
    requires Complete(data, compiles, j, c) && data[j].JObj?
    requires TagOf(data[j].entries) == PlainTag && UniqueNames(data[j].entries)
    ensures c[j].Box? && c[j].obj.DictObj?
    ensures |c[j].obj.entries| == |data[j].entries|
    ensures forall k :: 0 <= k < |data[j].entries| ==>
      c[j].obj.entries[k] == (data[j].entries[k].0, Ref(|data|, data[j].entries[k].1, c))
  {
    var es := data[j].entries;
    var hs := RefEntries(|data|, es, c);
    assert UniqueNames(hs) by {
      forall a, b | 0 <= a < b < |hs| ensures hs[a].0 != hs[b].0 {
        assert hs[a].0 == es[a].0 && hs[b].0 == es[b].0;
      }
    }
    DictBuildUnique(hs);
  }

  /** A container that refers to its own slot contains itself: the reference is
      the same container, not a copy, and hydration does not descend again. */
  lemma SelfReference(data: seq<Json>, compiles: string -> bool, j: int, k: int, c: map<int, Cached>)
    requires Complete(data, compiles, j, c) && data[j].JArr?
    requires 0 <= k < |data[j].items| && AsIndex(data[j].items[k]) == Some(j)
    ensures c[j].obj.items[k] == Node(j)
  {
    ListSlot(data, compiles, j, c);
  }

  /** In a sound cache every container reference names a cached container, and
      any two references to one container slot are the same `Node`: shared and
      cyclic references are identities, not copies. */
  lemma SharedIdentity(data: seq<Json>, compiles: string -> bool, c: map<int, Cached>, x: Json, y: Json)
    requires Sound(data, compiles, c)
    requires RefCached(|data|, x, c) && RefCached(|data|, y, c)
    requires InRange(|data|, x) && AsIndex(x) == AsIndex(y)
    ensures Ref(|data|, x, c) == Ref(|data|, y, c)
    ensures Ref(|data|, x, c).Node? ==>
      var t := Ref(|data|, x, c).slot;
      t == AsIndex(x).value && t in c && c[t].Box?
  {
    var i := AsIndex(x).value;
    assert Complete(data, compiles, i, c);
    if c[i].Scalar? {
      ExpandScalar(|data|, compiles, data[i], c);
    }
  }
}
