/** The values the Nuxt 3 hydrator produces, and the Python `set` / `dict`
    insertion rules it relies on when it fills containers. */
module Hydrated {
  import opened JsonValues

  /** A hydrated value.  Every container the hydrator creates belongs to exactly
      one slot of the serialized array and is reached through `Node(slot)`, so two
      references share identity exactly when they name the same slot. */
  datatype HVal =
    | Plain(j: Json)        // a Python value of JSON shape, returned as stored
    | Date(ms: real)        // `datetime.fromtimestamp(ms / 1000)`
    | Pattern(body: string, ignoreCase: bool, multiline: bool, dotAll: bool)
    | Node(slot: int)       // the list, dict, set or map built for `slot`

  /** The contents of a container built for a slot. */
  datatype Obj =
    | ListObj(items: seq<HVal>)
    | DictObj(entries: seq<(string, HVal)>)
    | SetObj(elems: seq<HVal>)
    | MapObj(pairs: seq<(HVal, HVal)>)

  /** A cache entry: a value stored as is, or a container owned by the slot. */
  datatype Cached = Scalar(v: HVal) | Box(obj: Obj)

  /** What a lookup of slot `i` yields when the cache holds `e` for it. */
  function Resolve(i: int, e: Cached): HVal
  {
    if e.Box? then Node(i) else e.v
  }

  /** Python's hash equality on the hashable values: `True == 1 == 1.0`,
      dates by instant, compiled patterns by pattern text and flags. */
  datatype Key =
    | KNone
    | KNum(r: real)
    | KStr(s: string)
    | KDate(ms: real)
    | KPattern(text: string, ignoreCase: bool, multiline: bool, dotAll: bool)
    | KUnhashable

  /** Lists, dicts, sets and maps cannot be set members or map keys. */
  predicate Hashable(h: HVal)
  {
    match h
    case Plain(j) => !j.JArr? && !j.JObj?
    case Node(_) => false
    case _ => true
  }

  function KeyOf(h: HVal): (k: Key)
    ensures k.KUnhashable? <==> !Hashable(h)
  {
    match h
    case Plain(j) =>
      (match j
       case JNull => KNone
       case JBool(b) => KNum(if b then 1.0 else 0.0)
       case JInt(i) => KNum(i as real)
       case JFloat(x) => KNum(x)
       case JStr(s) => KStr(s)
       case _ => KUnhashable)
    case Date(ms) => KDate(ms)
    case Pattern(b, i, m, s) => KPattern(b, i, m, s)
    case Node(_) => KUnhashable
  }

  /** Python's equality of hashable literals: `True == 1` and `False == 0`,
      an int equals a float of the same value and no other, and a string
      equals no number. */
  lemma NumericKeys(b: bool, i: int, x: real, s: string)
    ensures KeyOf(Plain(JBool(b))) == KeyOf(Plain(JInt(if b then 1 else 0)))
    ensures KeyOf(Plain(JInt(i))) == KeyOf(Plain(JFloat(x))) <==> i as real == x
    ensures KeyOf(Plain(JStr(s))) != KeyOf(Plain(JInt(i)))
    ensures KeyOf(Plain(JStr(s))) != KeyOf(Plain(JFloat(x)))
  {
  }

  /** No two members are equal in Python's sense. */
  predicate DistinctKeys(hs: seq<HVal>)
  {
    forall a, b :: 0 <= a < b < |hs| ==> KeyOf(hs[a]) != KeyOf(hs[b])
  }

  /** `s.add(h)`: a member equal to `h` is kept in place of `h`. */
  function SetAdd(elems: seq<HVal>, h: HVal): (r: seq<HVal>)
    requires DistinctKeys(elems)
    ensures DistinctKeys(r)
    ensures forall e :: e in elems ==> e in r
    ensures h in r || exists e :: e in elems && KeyOf(e) == KeyOf(h)
    ensures forall e :: e in r ==> e in elems || e == h
  {
    if exists k :: 0 <= k < |elems| && KeyOf(elems[k]) == KeyOf(h) then elems else elems + [h]
  }

  /** The set built by adding `hs` in order; `None` when a member is unhashable
      (Python raises `TypeError`). */
  function SetBuild(hs: seq<HVal>): (r: Option<seq<HVal>>)
    ensures r.Some? <==> forall k :: 0 <= k < |hs| ==> Hashable(hs[k])
    ensures r.Some? ==> DistinctKeys(r.value)
    ensures r.Some? ==> forall e :: e in r.value ==> e in hs
  {
    if hs == [] then Some([])
    else
      var prev := SetBuild(hs[..|hs| - 1]);
      var h := hs[|hs| - 1];
      if prev.None? || !Hashable(h) then None
      else Some(SetAdd(prev.value, h))
  }

  /** Every value added is represented in the built set by an equal member. */
  lemma {:induction false} SetBuildCovers(hs: seq<HVal>, h: HVal)
    requires SetBuild(hs).Some? && h in hs
    ensures exists e :: e in SetBuild(hs).value && KeyOf(e) == KeyOf(h)
  {
    var init := hs[..|hs| - 1];
    var prev := SetBuild(init).value;
    if h in init {
      SetBuildCovers(init, h);
      var e :| e in prev && KeyOf(e) == KeyOf(h);
      assert e in SetAdd(prev, hs[|hs| - 1]);
    } else {
      assert h == hs[|hs| - 1];
      if h !in SetAdd(prev, h) {
        var e :| e in prev && KeyOf(e) == KeyOf(h);
        assert e in SetAdd(prev, h);
      }
    }
  }

  /** Position of the first key equal to `k` in Python's sense. */
  function FindKey<V>(pairs: seq<(HVal, V)>, k: HVal): (r: Option<nat>)
    ensures r.Some? ==> r.value < |pairs| && KeyOf(pairs[r.value].0) == KeyOf(k)
    ensures r.None? ==> forall n :: 0 <= n < |pairs| ==> KeyOf(pairs[n].0) != KeyOf(k)
  {
    if pairs == [] then None
    else if KeyOf(pairs[0].0) == KeyOf(k) then Some(0)
    else match FindKey(pairs[1..], k)
      case None => None
      case Some(n) => Some(n + 1)
  }

  /** No two pairs of a map have keys equal in Python's sense. */
  predicate DistinctPairKeys(pairs: seq<(HVal, HVal)>)
  {
    forall a, b :: 0 <= a < b < |pairs| ==> KeyOf(pairs[a].0) != KeyOf(pairs[b].0)
  }

  /** `m[k] = v` on a map: an equal key keeps its place and its original key
      object and takes the new value; otherwise the pair is appended.  Every
      other pair is left as it was, and in a map with distinct keys the keys
      stay distinct and every pair whose key equals `k` holds `v`. */
  function MapPut(pairs: seq<(HVal, HVal)>, k: HVal, v: HVal): (r: seq<(HVal, HVal)>)
    ensures FindKey(pairs, k).None? ==> r == pairs + [(k, v)]
    ensures FindKey(pairs, k).Some? ==>
      r == pairs[FindKey(pairs, k).value := (pairs[FindKey(pairs, k).value].0, v)]
    ensures forall m :: 0 <= m < |pairs| && KeyOf(pairs[m].0) != KeyOf(k) ==> r[m] == pairs[m]
    ensures DistinctPairKeys(pairs) ==> DistinctPairKeys(r)
    ensures DistinctPairKeys(pairs) ==>
      forall m :: 0 <= m < |r| && KeyOf(r[m].0) == KeyOf(k) ==> r[m].1 == v
  {
    match FindKey(pairs, k)
    case None => pairs + [(k, v)]
    case Some(n) => pairs[n := (pairs[n].0, v)]
  }

  /** The map built from `kvs` in order; `None` when a key is unhashable.
      Its keys are distinct. */
  function MapBuild(kvs: seq<(HVal, HVal)>): (r: Option<seq<(HVal, HVal)>>)
    ensures r.Some? <==> forall k :: 0 <= k < |kvs| ==> Hashable(kvs[k].0)
    ensures r.Some? ==> |r.value| <= |kvs|
    ensures r.Some? ==> DistinctPairKeys(r.value)
  {
    if kvs == [] then Some([])
    else
      var prev := MapBuild(kvs[..|kvs| - 1]);
      var kv := kvs[|kvs| - 1];
      if prev.None? || !Hashable(kv.0) then None
      else Some(MapPut(prev.value, kv.0, kv.1))
  }

  /** In a map with distinct keys, a pair whose key equals `k` is the one
      `FindKey` finds. */
  lemma FindKeyUnique(pairs: seq<(HVal, HVal)>, k: HVal, m: int)
    requires DistinctPairKeys(pairs) && 0 <= m < |pairs| && KeyOf(pairs[m].0) == KeyOf(k)
    ensures FindKey(pairs, k) == Some(m)
  {
  }

  /** Every key of `kvs` is in the map built from them, holding the value of
      the last pair whose key equals it: `m[key]` after the assignments. */
  lemma {:induction false} MapBuildLast(kvs: seq<(HVal, HVal)>, m: int)
    requires MapBuild(kvs).Some? && 0 <= m < |kvs|
    requires forall m' :: m < m' < |kvs| ==> KeyOf(kvs[m'].0) != KeyOf(kvs[m].0)
    ensures FindKey(MapBuild(kvs).value, kvs[m].0).Some?
    ensures MapBuild(kvs).value[FindKey(MapBuild(kvs).value, kvs[m].0).value].1 == kvs[m].1
  {
    var init := kvs[..|kvs| - 1];
    var last := kvs[|kvs| - 1];
    var prev := MapBuild(init).value;
    var r := MapBuild(kvs).value;
    assert r == MapPut(prev, last.0, last.1);
    if m == |kvs| - 1 {
      var n := if FindKey(prev, last.0).Some? then FindKey(prev, last.0).value else |prev|;
      assert KeyOf(r[n].0) == KeyOf(last.0);
      FindKeyUnique(r, last.0, n);
    } else {
      assert kvs[m] == init[m];
      forall m' | m < m' < |init| ensures KeyOf(init[m'].0) != KeyOf(init[m].0) {
        assert init[m'] == kvs[m'];
      }
      MapBuildLast(init, m);
      var n := FindKey(prev, kvs[m].0).value;
      assert r[n] == prev[n];
      FindKeyUnique(r, kvs[m].0, n);
    }
  }

  /** Position of key `k` among string-keyed entries. */
  function FindName<V>(es: seq<(string, V)>, k: string): (r: Option<nat>)
    ensures r.Some? ==> r.value < |es| && es[r.value].0 == k
    ensures r.None? ==> forall n :: 0 <= n < |es| ==> es[n].0 != k
  {
    if es == [] then None
    else if es[0].0 == k then Some(0)
    else match FindName(es[1..], k)
      case None => None
      case Some(n) => Some(n + 1)
  }

  /** `d[k] = v` on a dict with string keys. */
  function DictPut(es: seq<(string, HVal)>, k: string, v: HVal): (r: seq<(string, HVal)>)
    ensures FindName(es, k).None? ==> r == es + [(k, v)]
    ensures FindName(es, k).Some? ==> r == es[FindName(es, k).value := (k, v)]
  {
    match FindName(es, k)
    case None => es + [(k, v)]
    case Some(n) => es[n := (k, v)]
  }

  /** The dict built by assigning the entries of `kvs` in order. */
  function DictBuild(kvs: seq<(string, HVal)>): seq<(string, HVal)>
  {
    if kvs == [] then []
    else DictPut(DictBuild(kvs[..|kvs| - 1]), kvs[|kvs| - 1].0, kvs[|kvs| - 1].1)
  }

  /** Assigning distinct keys in order yields exactly those entries, in that
      order: the dict keeps every key and the value assigned to it. */
  lemma {:induction false} DictBuildUnique(kvs: seq<(string, HVal)>)
    requires UniqueNames(kvs)
    ensures DictBuild(kvs) == kvs
  {
    if kvs != [] {
      var init := kvs[..|kvs| - 1];
      var last := kvs[|kvs| - 1];
      assert UniqueNames(init);
      DictBuildUnique(init);
      assert DictBuild(kvs) == DictPut(init, last.0, last.1);
      assert forall n :: 0 <= n < |init| ==> init[n].0 != last.0;
      assert FindName(init, last.0).None?;
      assert init + [last] == kvs;
    }
  }
}
