/** `StealthConfig`, the anti-detection settings, and `merge_stealth_configs`,
    which combines a base configuration with an optional override.  An
    instance is modelled by its attribute dictionary (`__dict__`), in the
    order the dataclass creates the attributes, because merging walks that
    dictionary by name.  The two internal fields are declared `init=False`
    with a default, so the generated `__init__` never assigns them: they are
    class attributes, absent from a new instance's dictionary, and reading
    one gives the class's `None` until something assigns it. */
module Stealth {
  import opened JsonValues

  /** The attributes a new `StealthConfig()` holds in its dictionary: the
      eleven public options with their defaults, and no internal field. */
  function Defaults(): (d: seq<(string, Json)>)
    ensures UniqueNames(d)
    ensures |d| == 11
    ensures forall k :: 0 <= k < |d| ==> !Private(d[k].0) && d[k].1 != JNull
  {
    [ ("enabled", JBool(true)),
      ("random_delays", JBool(true)),
      ("min_action_delay_ms", JInt(100)),
      ("max_action_delay_ms", JInt(3000)),
      ("human_typing", JBool(true)),
      ("typing_speed_wpm", JInt(65)),
      ("typo_chance", JFloat(0.02)),
      ("pause_chance", JFloat(0.05)),
      ("mouse_movement", JBool(true)),
      ("randomize_viewport", JBool(true)),
      ("realistic_user_agent", JBool(true)) ]
  }

  /** `name.startswith("_")`: an internal field. */
  predicate Private(name: string)
  {
    |name| > 0 && name[0] == '_'
  }

  /** `setattr(obj, k, v)` on the attribute dictionary: an existing attribute
      keeps its place and takes the new value, a new one is appended. */
  function Put(es: seq<(string, Json)>, k: string, v: Json): (r: seq<(string, Json)>)
    ensures HasKey(r, k) && Lookup(r, k) == v
    ensures forall n :: n != k ==> (HasKey(r, n) <==> HasKey(es, n))
    ensures forall n :: n != k && HasKey(es, n) ==> Lookup(r, n) == Lookup(es, n)
    ensures UniqueNames(es) ==> UniqueNames(r)
  {
    if es == [] then
      HasKeyCons((k, v), []);
      UniqueCons((k, v), []);
      assert [(k, v)] == [(k, v)] + [];
      [(k, v)]
    else
      var e := es[0];
      assert es == [e] + es[1..];
      HasKeyCons(e, es[1..]);
      UniqueCons(e, es[1..]);
      if e.0 == k then
        var r := [(k, v)] + es[1..];
        HasKeyCons((k, v), es[1..]);
        UniqueCons((k, v), es[1..]);
        assert r[1..] == es[1..];
        r
      else
        var tail := Put(es[1..], k, v);
        var r := [e] + tail;
        HasKeyCons(e, tail);
        UniqueCons(e, tail);
        assert r[1..] == tail;
        r
  }

  /** A key of `[e] + es` is `e`'s key or a key of `es`. */
  lemma HasKeyCons(e: (string, Json), es: seq<(string, Json)>)
    ensures forall n :: HasKey([e] + es, n) <==> e.0 == n || HasKey(es, n)
  {
    var r := [e] + es;
    forall n ensures HasKey(r, n) <==> e.0 == n || HasKey(es, n) {
      if HasKey(es, n) {
        var m :| 0 <= m < |es| && es[m].0 == n;
        assert r[m + 1] == es[m];
      }
      if e.0 == n {
        assert r[0] == e;
      }
      if HasKey(r, n) && e.0 != n {
        var m :| 0 <= m < |r| && r[m].0 == n;
        assert es[m - 1] == r[m];
      }
    }
  }

  /** `[e] + es` has no repeated key exactly when `es` has none and lacks
      `e`'s key. */
  lemma UniqueCons(e: (string, Json), es: seq<(string, Json)>)
    ensures UniqueNames([e] + es) <==> UniqueNames(es) && !HasKey(es, e.0)
  {
    var r := [e] + es;
    if UniqueNames(r) {
      forall a, b | 0 <= a < b < |es| ensures es[a].0 != es[b].0 {
        assert r[a + 1] == es[a] && r[b + 1] == es[b];
      }
      forall m | 0 <= m < |es| ensures es[m].0 != e.0 {
        assert r[0] == e && r[m + 1] == es[m];
      }
    }
    if UniqueNames(es) && !HasKey(es, e.0) {
      forall a, b | 0 <= a < b < |r| ensures r[a].0 != r[b].0 {
        assert r[b] == es[b - 1];
        if a > 0 {
          assert r[a] == es[a - 1];
        } else {
          assert r[a] == e && es[b - 1].0 != e.0;
        }
      }
    }
  }

  /** The value the merge gives attribute `name`: the override's, unless that
      is `None` (or missing), else the base's value `v`. */
  function Chosen(o: seq<(string, Json)>, name: string, v: Json): Json
  {
    var ov := Get(o, name, JNull);
    if ov != JNull then ov else v
  }

  /** The attributes of the merged configuration after the base attributes
      `bs` have been walked in order, starting from `init`. */
  function MergeAttrs(init: seq<(string, Json)>, bs: seq<(string, Json)>, o: seq<(string, Json)>): (r: seq<(string, Json)>)
    ensures UniqueNames(init) ==> UniqueNames(r)
  {
    if bs == [] then init
    else
      var prev := MergeAttrs(init, bs[..|bs| - 1], o);
      var (name, v) := bs[|bs| - 1];
      if Private(name) then prev else Put(prev, name, Chosen(o, name, v))
  }

  class StealthConfig {
    /** The instance's `__dict__`. */
    var attrs: seq<(string, Json)>

    /** `StealthConfig()`: every option at its default. */
    constructor ()
      ensures attrs == Defaults()
    {
      attrs := Defaults();
    }

    /** `getattr(self, name, None)`: an attribute missing from the
        dictionary reads as `None`, which is also the class's value for the
        internal fields. */
    function GetAttr(name: string): Json
      reads this
    {
      Get(attrs, name, JNull)
    }

    /** `setattr(self, name, value)`. */
    method SetAttr(name: string, value: Json)
      modifies this
      ensures attrs == Put(old(attrs), name, value)
    {
      attrs := Put(attrs, name, value);
    }
  }

  /** `merge_stealth_configs(base, override)`: without an override the base
      object itself is returned; otherwise a new default configuration takes,
      for every public attribute of the base in order, the override's value
      when it is not `None` and the base's value otherwise. */
  method MergeStealthConfigs(base: StealthConfig, override: StealthConfig?) returns (merged: StealthConfig)
    ensures override == null ==> merged == base
    ensures override != null ==> fresh(merged)
    ensures override != null ==> merged.attrs == MergeAttrs(Defaults(), base.attrs, override.attrs)
  {
    if override == null {
      return base;
    }
    merged := new StealthConfig();
    var k := 0;
    while k < |base.attrs|
      invariant 0 <= k <= |base.attrs|
      invariant fresh(merged)
      invariant merged.attrs == MergeAttrs(Defaults(), base.attrs[..k], override.attrs)
    {
      var (name, v) := base.attrs[k];
      if !Private(name) {
        var ov := override.GetAttr(name);
        if ov != JNull {
          merged.SetAttr(name, ov);
        } else {
          merged.SetAttr(name, v);
        }
      }
      assert base.attrs[..k + 1][..k] == base.attrs[..k];
      k := k + 1;
    }
    assert base.attrs[..k] == base.attrs;
  }

  /** A public attribute of the base comes out as the override's value when
      that is not `None`, else as the base's value; one the base lacks keeps
      its value from `init`. */
  lemma {:induction false} MergedPublicField(init: seq<(string, Json)>, bs: seq<(string, Json)>, o: seq<(string, Json)>, name: string)
    requires UniqueNames(bs) && !Private(name)
    ensures HasKey(bs, name) ==>
      HasKey(MergeAttrs(init, bs, o), name) && Lookup(MergeAttrs(init, bs, o), name) == Chosen(o, name, Lookup(bs, name))
    ensures !HasKey(bs, name) ==> Get(MergeAttrs(init, bs, o), name, JNull) == Get(init, name, JNull)
  {
    if bs != [] {
      var init' := bs[..|bs| - 1];
      var last := bs[|bs| - 1];
      var prev := MergeAttrs(init, init', o);
      var r := MergeAttrs(init, bs, o);
      assert r == if Private(last.0) then prev else Put(prev, last.0, Chosen(o, last.0, last.1));
      assert UniqueNames(init');
      MergedPublicField(init, init', o, name);
      if last.0 == name {
        assert r == Put(prev, name, Chosen(o, name, last.1));
        LookupLast(bs, name);
      } else {
        HasKeyPrefix(bs, name);
        assert HasKey(r, name) <==> HasKey(prev, name);
        assert HasKey(prev, name) ==> Lookup(r, name) == Lookup(prev, name);
        if HasKey(init', name) {
          LookupPrefix(bs, name);
        }
      }
    }
  }

  /** A key other than the last one is in a dict iff it is in the rest. */
  lemma HasKeyPrefix(es: seq<(string, Json)>, k: string)
    requires es != [] && es[|es| - 1].0 != k
    ensures HasKey(es, k) <==> HasKey(es[..|es| - 1], k)
  {
    var init := es[..|es| - 1];
    if HasKey(es, k) {
      var n :| 0 <= n < |es| && es[n].0 == k;
      assert init[n] == es[n];
    }
    if HasKey(init, k) {
      var n :| 0 <= n < |init| && init[n].0 == k;
      assert es[n] == init[n];
    }
  }

  /** In a dict without repeated keys, the last key's value is found. */
  lemma {:induction false} LookupLast(es: seq<(string, Json)>, k: string)
    requires es != [] && UniqueNames(es) && es[|es| - 1].0 == k
    ensures HasKey(es, k) && Lookup(es, k) == es[|es| - 1].1
  {
    assert es[|es| - 1].0 == k;
    if |es| > 1 {
      assert es[0].0 != k;
      assert UniqueNames(es[1..]);
      assert es[1..][|es| - 2] == es[|es| - 1];
      LookupLast(es[1..], k);
    }
  }

  /** Dropping the last entry does not change the lookup of another key. */
  lemma {:induction false} LookupPrefix(es: seq<(string, Json)>, k: string)
    requires es != [] && HasKey(es[..|es| - 1], k)
    ensures HasKey(es, k) && Lookup(es, k) == Lookup(es[..|es| - 1], k)
  {
    var init := es[..|es| - 1];
    assert init[0] == es[0];
    if es[0].0 != k {
      assert es[1..][..|es| - 2] == init[1..];
      assert HasKey(init[1..], k) by {
        var n :| 0 <= n < |init| && init[n].0 == k;
        assert n > 0 && init[1..][n - 1] == init[n];
      }
      LookupPrefix(es[1..], k);
    }
  }

  /** The internal fields are never copied: the merged configuration keeps
      whatever `init` had for them, so a resolved user agent or viewport of
      the base is dropped.  Starting from a new configuration, which does not
      hold them, they read as the class's `None`. */
  lemma {:induction false} MergedPrivateField(init: seq<(string, Json)>, bs: seq<(string, Json)>, o: seq<(string, Json)>, name: string)
    requires Private(name)
    ensures Get(MergeAttrs(init, bs, o), name, JNull) == Get(init, name, JNull)
    ensures init == Defaults() ==> Get(MergeAttrs(init, bs, o), name, JNull) == JNull
  {
    assert !HasKey(Defaults(), name);
    if bs != [] {
      var prev := MergeAttrs(init, bs[..|bs| - 1], o);
      MergedPrivateField(init, bs[..|bs| - 1], o, name);
      var last := bs[|bs| - 1];
      if !Private(last.0) {
        assert last.0 != name;
      }
    }
  }
}
