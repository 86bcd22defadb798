/** The `nuxt_scraper` entry points: deserializing a Nuxt 3 payload with the
    hydrator, parsing the `__NUXT_DATA__` text, normalising the result of the
    combined browser extraction (`element` or `window` method), and the guards
    on what the browser returned. */
module NuxtParser {
  import opened JsonValues
  import opened Hydrated
  import SpecialValues
  import opened Expansion
  import opened Hydration
  import opened Errors
  import FlowParser

  const DecodeFailure := "Failed to parse Nuxt data JSON: "
  const NotAString := "Expected JSON string but got non-string type"
  const NoResult := "No extraction result received"
  const NoData := "No Nuxt data found via element or window methods"
  const UnknownMethod := "Unknown extraction method: "
  const NoValidResult := "No valid extraction result received"
  const NoCombinedData := "No Nuxt data found via #__NUXT_DATA__ element or window.__NUXT__"

  /** What deserialization returns: the data as it was parsed, or the value
      hydrated from the root slot together with the slots it was built from. */
  datatype Output =
    | Unhydrated(j: Json)
    | Graph(root: HVal, heap: map<int, Cached>)

  /** The root slot: 1 (slot 0 holds metadata) when there are two slots or
      more, else 0. */
  function RootIndex(n: nat): (i: int)
    ensures n >= 2 ==> i == 1
    ensures n < 2 ==> i == 0
  {
    if n >= 2 then 1 else 0
  }

  /** What deserializing the parsed data `p` may return.  Data that is not a
      non-empty list comes back unchanged.  Otherwise hydration from the root
      either succeeds, and every slot it cached holds that slot's expansion
      with the root among them, or it raises and the parsed data comes back
      unhydrated.  A raise needs the root to be `Unhydratable` (no fully
      hydrated cache holds it: a slot reached from it raises) and some slot
      that `Raises`. */
  ghost predicate Deserialized(p: Json, compiles: string -> bool, out: Output)
  {
    if !p.JArr? || p.items == [] then out == Unhydrated(p)
    else
      var root := RootIndex(|p.items|);
      match out
      case Unhydrated(j) =>
        && j == p
        && Unhydratable(p.items, compiles, root)
        && exists k :: 0 <= k < |p.items| && Raises(p.items, compiles, p.items[k])
      case Graph(v, heap) =>
        Sound(p.items, compiles, heap) && root in heap && v == Resolve(root, heap[root])
  }

  /** A non-empty list comes back unhydrated exactly when no fully hydrated
      cache holds its root, and hydrated otherwise: a raise in a slot the
      root does not reach does not matter. */
  lemma FallbackIffUnhydratable(p: Json, compiles: string -> bool, out: Output)
    requires p.JArr? && p.items != [] && Deserialized(p, compiles, out)
    ensures out.Unhydrated? <==> Unhydratable(p.items, compiles, RootIndex(|p.items|))
  {
    if out.Graph? {
      assert Sound(p.items, compiles, out.heap) && RootIndex(|p.items|) in out.heap;
    }
  }

  /** `[{"$b": null}, "x"]` hydrates to `"x"`: the bad big integer in slot 0
      raises, but the root is slot 1, which does not refer to it. */
  lemma UnreachableRaiseHydrates(compiles: string -> bool, out: Output)
    requires Deserialized(JArr([JObj([("$b", JNull)]), JStr("x")]), compiles, out)
    ensures Raises([JObj([("$b", JNull)]), JStr("x")], compiles, JObj([("$b", JNull)]))
    ensures out.Graph? && out.root == Plain(JStr("x"))
  {
    var bad := JObj([("$b", JNull)]);
    var data := [bad, JStr("x")];
    assert bad.entries[0].0 == "$b";
    assert Lookup(bad.entries, "$b") == JNull;
    var h := map[1 := Scalar(Plain(JStr("x")))];
    assert Complete(data, compiles, 1, h);
    assert Sound(data, compiles, h);
    assert out.Graph? by {
      FallbackIffUnhydratable(JArr(data), compiles, out);
    }
    assert Complete(data, compiles, 1, out.heap);
  }

  /** `[0, {"a": 2}, "v", {"$s": 5}]` hydrates to `{"a": "v"}`: the set in
      slot 3 cannot iterate its payload and raises, but nothing the root
      refers to reaches it. */
  lemma UnreachableSetHydrates(compiles: string -> bool, out: Output)
    requires Deserialized(JArr(SetAside()), compiles, out)
    ensures Raises(SetAside(), compiles, SetAside()[3])
    ensures out.Graph? && out.root == Node(1)
    ensures 1 in out.heap && out.heap[1] == Box(DictObj([("a", Plain(JStr("v")))]))
  {
    SetAsideRaises(compiles);
    SetAsideRootHydratable(compiles);
    FallbackIffUnhydratable(JArr(SetAside()), compiles, out);
    SetAsideHeap(compiles, out.heap);
  }

  /** Slot 3 of the payload raises: `5` cannot be iterated. */
  lemma SetAsideRaises(compiles: string -> bool)
    ensures Raises(SetAside(), compiles, SetAside()[3])
  {
    var bad := SetAside()[3];
    assert bad.entries[0].0 == "$s";
    assert Lookup(bad.entries, "$s") == JInt(5);
  }

  /** A fully hydrated cache holds the root of the payload. */
  lemma SetAsideRootHydratable(compiles: string -> bool)
    ensures !Unhydratable(SetAside(), compiles, 1)
  {
    var data := SetAside();
    var h := map[1 := Box(DictObj([("a", Plain(JStr("v")))])), 2 := Scalar(Plain(JStr("v")))];
    SetAsideDictComplete(compiles, h);
    assert Complete(data, compiles, 2, h);
    assert Sound(data, compiles, h) && 1 in h;
  }

  /** Any fully hydrated cache holding the root holds `{"a": "v"}` there. */
  lemma SetAsideHeap(compiles: string -> bool, c: map<int, Cached>)
    requires Sound(SetAside(), compiles, c) && 1 in c
    ensures c[1] == Box(DictObj([("a", Plain(JStr("v")))]))
  {
    var data := SetAside();
    assert Complete(data, compiles, 1, c);
    SetAsideDictTag();
    DictSlot(data, compiles, 1, c);
    assert Complete(data, compiles, 2, c);
    assert c[1].obj.entries[0] == ("a", Plain(JStr("v")));
  }

  /** The payload of `UnreachableSetHydrates`. */
  function SetAside(): (data: seq<Json>)
    ensures |data| == 4 && data[1].JObj? && data[3].JObj?
  {
    [JInt(0), JObj([("a", JInt(2))]), JStr("v"), JObj([("$s", JInt(5))])]
  }

  /** Its slot 1 is a plain dict with one key. */
  lemma SetAsideDictTag()
    ensures SpecialValues.TagOf(SetAside()[1].entries) == SpecialValues.PlainTag && UniqueNames(SetAside()[1].entries)
  {
    var es := SetAside()[1].entries;
    assert |es| == 1 && es[0].0 == "a";
  }

  /** Its slot 1 is complete once it holds `{"a": "v"}` and slot 2 holds "v". */
  lemma SetAsideDictComplete(compiles: string -> bool, c: map<int, Cached>)
    requires 1 in c && c[1] == Box(DictObj([("a", Plain(JStr("v")))]))
    requires 2 in c && c[2] == Scalar(Plain(JStr("v")))
    ensures Complete(SetAside(), compiles, 1, c)
  {
    var data := SetAside();
    var es := data[1].entries;
    SetAsideDictTag();
    assert RefEntries(|data|, es, c) == [("a", Plain(JStr("v")))];
    DictBuildUnique([("a", Plain(JStr("v")))]);
  }

  /** A non-empty list none of whose slots raises is always hydrated. */
  lemma NoRaiseHydrates(p: Json, compiles: string -> bool, out: Output)
    requires p.JArr? && p.items != []
    requires forall k :: 0 <= k < |p.items| ==> !Raises(p.items, compiles, p.items[k])
    requires Deserialized(p, compiles, out)
    ensures out.Graph?
  {
  }

  /** A big integer with a string payload is hydrated, never returned raw,
      whether or not `int()` accepts the string: `[0, {"$b": s}]` has no slot
      that raises. */
  lemma BigIntPayloadNotUnhydrated(compiles: string -> bool, s: string)
    ensures var p := JArr([JInt(0), JObj([("$b", JStr(s))])]);
      !Deserialized(p, compiles, Unhydrated(p))
  {
    var raw := JObj([("$b", JStr(s))]);
    var p := JArr([JInt(0), raw]);
    forall k | 0 <= k < |p.items| ensures !Raises(p.items, compiles, p.items[k]) {
      if k == 1 {
        assert raw.entries[0].0 == "$b";
        assert Lookup(raw.entries, "$b") == JStr(s);
      }
    }
    if Deserialized(p, compiles, Unhydrated(p)) {
      NoRaiseHydrates(p, compiles, Unhydrated(p));
    }
  }

  /** A well-formed set is hydrated, never returned raw:
      `[0, {"s": 2}, {"$s": [3]}, "a"]` has no slot that raises. */
  lemma SetPayloadNotUnhydrated(compiles: string -> bool)
    ensures var p := JArr([JInt(0), JObj([("s", JInt(2))]), JObj([("$s", JArr([JInt(3)]))]), JStr("a")]);
      !Deserialized(p, compiles, Unhydrated(p))
  {
    var p := JArr([JInt(0), JObj([("s", JInt(2))]), JObj([("$s", JArr([JInt(3)]))]), JStr("a")]);
    forall k | 0 <= k < |p.items| ensures !Raises(p.items, compiles, p.items[k]) {
    }
    if Deserialized(p, compiles, Unhydrated(p)) {
      NoRaiseHydrates(p, compiles, Unhydrated(p));
    }
  }

  /** The value `deserialize_nuxt3_data` hydrates: the parsed text in JSON-string
      mode (`None` when a string does not parse or the argument is no string),
      the argument itself otherwise. */
  function Loaded(raw: Json, isJsonString: bool, parse: string -> Option<Json>): Option<Json>
  {
    if !isJsonString then Some(raw)
    else if raw.JStr? then parse(raw.s)
    else None
  }

  /** `deserialize_nuxt3_data(raw, is_json_string)`, given `json.loads` as
      `parse` and whether `re.compile` accepts a body as `compiles`.  Text that
      is not JSON raises `DataParsingError`; a non-string in JSON-string mode
      comes back as is (the error raised for it is caught); anything else is
      hydrated with a fresh cache as `Deserialized` describes. */
  method Deserialize(raw: Json, isJsonString: bool, parse: string -> Option<Json>, compiles: string -> bool)
    returns (r: Outcome<Output>)
    ensures r.Fail? <==> isJsonString && raw.JStr? && parse(raw.s).None?
    ensures r.Fail? ==> r.error == DataParsingError(DecodeFailure, None)
    ensures isJsonString && !raw.JStr? ==> r == Ok(Unhydrated(raw))
    ensures Loaded(raw, isJsonString, parse).Some? ==>
      r.Ok? && Deserialized(Loaded(raw, isJsonString, parse).value, compiles, r.value)
  {
    var parsed: Json;
    if isJsonString {
      if raw.JStr? {
        var p := parse(raw.s);
        if p.None? {
          return Fail(DataParsingError(DecodeFailure, None));
        }
        parsed := p.value;
      } else {
        return Ok(Unhydrated(raw));
      }
    } else {
      parsed := raw;
    }
    if !parsed.JArr? || parsed.items == [] {
      return Ok(Unhydrated(parsed));
    }
    var data := parsed.items;
    var root := RootIndex(|data|);
    var hydrator := new Hydrator(data, compiles);
    var step := hydrator.Hydrate(JInt(root));
    if step.Raised? {
      return Ok(Unhydrated(parsed));
    }
    ghost var none: map<int, Cached> := map[];
    assert Sound(data, compiles, hydrator.cache) by {
      forall j | j in hydrator.cache ensures Complete(data, compiles, j, hydrator.cache) {
        assert j !in none;
      }
    }
    r := Ok(Graph(step.v, hydrator.cache));
  }

  /** Deserialization as its guard intends: a non-string in JSON-string mode
      raises `DataParsingError` instead of being returned (the error raised
      for it is otherwise swallowed by the handler meant for hydration
      failures); every other input is treated as by `Deserialize`. */
  method DeserializeChecked(raw: Json, isJsonString: bool, parse: string -> Option<Json>, compiles: string -> bool)
    returns (r: Outcome<Output>)
    ensures r.Fail? <==> Loaded(raw, isJsonString, parse).None?
    ensures isJsonString && !raw.JStr? ==> r == Fail(DataParsingError(NotAString, None))
    ensures isJsonString && raw.JStr? && parse(raw.s).None? ==> r == Fail(DataParsingError(DecodeFailure, None))
    ensures r.Ok? ==> Deserialized(Loaded(raw, isJsonString, parse).value, compiles, r.value)
  {
    if isJsonString && !raw.JStr? {
      return Fail(DataParsingError(NotAString, None));
    }
    r := Deserialize(raw, isJsonString, parse, compiles);
  }

  /** `parse_nuxt_json(raw, deserialize_nuxt3)`: the `nuxtflow` parse, followed
      when asked by deserialization of the parsed value. */
  method ParseNuxtJson(raw: string, deserialize: bool, parse: string -> Option<Json>, compiles: string -> bool)
    returns (r: Outcome<Output>)
    ensures FlowParser.ParseNuxtJson(raw, parse).Fail? ==> r == Fail(FlowParser.ParseNuxtJson(raw, parse).error)
    ensures FlowParser.ParseNuxtJson(raw, parse).Ok? ==> r.Ok?
    ensures FlowParser.ParseNuxtJson(raw, parse).Ok? && !deserialize ==>
      r.value == Unhydrated(FlowParser.ParseNuxtJson(raw, parse).value)
    ensures FlowParser.ParseNuxtJson(raw, parse).Ok? && deserialize ==>
      Deserialized(FlowParser.ParseNuxtJson(raw, parse).value, compiles, r.value)
  {
    var text := FlowParser.ParseNuxtJson(raw, parse);
    if text.Fail? {
      return Fail(text.error);
    }
    if deserialize {
      r := Deserialize(text.value, false, parse, compiles);
    } else {
      r := Ok(Unhydrated(text.value));
    }
  }

  /** `extraction_result.get(name)` on a dict. */
  function Field(result: Json, name: string): Json
    requires result.JObj?
  {
    Get(result.entries, name, JNull)
  }

  /** A truthy dict with truthy `data` and `method`. */
  predicate HasPayload(result: Json)
  {
    result.JObj? && result.entries != [] && Truthy(Field(result, "data")) && Truthy(Field(result, "method"))
  }

  /** `validate_combined_result(extraction_result)`: a falsy or non-dict result,
      or one whose `data` or `method` is falsy, raises `NuxtDataNotFound`; a
      valid result is returned as is. */
  function ValidateCombinedResult(result: Json): (r: Outcome<Json>)
    ensures r.Ok? <==> HasPayload(result)
    ensures r.Ok? ==> r.value == result
    ensures !result.JObj? || result.entries == [] ==> r == Fail(NuxtDataNotFound(NoValidResult))
    ensures result.JObj? && result.entries != [] && !HasPayload(result) ==>
      r == Fail(NuxtDataNotFound(NoCombinedData))
  {
    if !result.JObj? || result.entries == [] then Fail(NuxtDataNotFound(NoValidResult))
    else if !Truthy(Field(result, "data")) || !Truthy(Field(result, "method")) then
      Fail(NuxtDataNotFound(NoCombinedData))
    else Ok(result)
  }

  /** The extraction method's name in an error message. */
  function MethodText(m: Json): string
  {
    if m.JStr? then m.s else []
  }

  /** The `element` method reports the element's text, which must be a string. */
  predicate ElementDataIsText(result: Json)
  {
    HasPayload(result) && Field(result, "method") == JStr("element") ==> Field(result, "data").JStr?
  }

  /** `parse_nuxt_result(extraction_result, deserialize_nuxt3)`: no usable
      result raises `NuxtDataNotFound`, exactly when `validate_combined_result`
      would; `element` data is parsed as `__NUXT_DATA__` text; `window` data is
      deserialized only when asked and only when it is a list, else returned as
      is; any other method raises `DataParsingError`. */
  method ParseNuxtResult(result: Json, deserialize: bool, parse: string -> Option<Json>, compiles: string -> bool)
    returns (r: Outcome<(Output, string)>)
    requires ElementDataIsText(result)
    ensures (r.Fail? && r.error.NuxtDataNotFound?) <==> ValidateCombinedResult(result).Fail?
    ensures !result.JObj? || result.entries == [] ==> r == Fail(NuxtDataNotFound(NoResult))
    ensures result.JObj? && result.entries != [] && !HasPayload(result) ==> r == Fail(NuxtDataNotFound(NoData))
    ensures HasPayload(result) && Field(result, "method") == JStr("element") ==>
      var text := FlowParser.ParseNuxtJson(Field(result, "data").s, parse);
      && (text.Fail? ==> r == Fail(text.error))
      && (text.Ok? ==> r.Ok? && r.value.1 == "element")
      && (text.Ok? && !deserialize ==> r.value.0 == Unhydrated(text.value))
      && (text.Ok? && deserialize ==> Deserialized(text.value, compiles, r.value.0))
    ensures HasPayload(result) && Field(result, "method") == JStr("window") ==>
      var data := Field(result, "data");
      && r.Ok? && r.value.1 == "window"
      && (deserialize && data.JArr? ==> Deserialized(data, compiles, r.value.0))
      && (!deserialize || !data.JArr? ==> r.value.0 == Unhydrated(data))
    ensures HasPayload(result) && Field(result, "method") != JStr("element") && Field(result, "method") != JStr("window") ==>
      r == Fail(DataParsingError(UnknownMethod + MethodText(Field(result, "method")), None))
  {
    if !result.JObj? || result.entries == [] {
      return Fail(NuxtDataNotFound(NoResult));
    }
    var data := Field(result, "data");
    var how := Field(result, "method");
    if !Truthy(data) || !Truthy(how) {
      return Fail(NuxtDataNotFound(NoData));
    }
    if how == JStr("element") {
      var parsed := ParseNuxtJson(data.s, deserialize, parse, compiles);
      if parsed.Fail? {
        return Fail(parsed.error);
      }
      r := Ok((parsed.value, "element"));
    } else if how == JStr("window") {
      if deserialize && data.JArr? {
        var out := Deserialize(data, false, parse, compiles);
        r := Ok((out.value, "window"));
      } else {
        r := Ok((Unhydrated(data), "window"));
      }
    } else {
      r := Fail(DataParsingError(UnknownMethod + MethodText(how), None));
    }
  }
}
