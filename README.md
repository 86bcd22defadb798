# Nuxt payload parsing, hydration and helpers — a Dafny model

This project models the data-handling core of a Python scraper for Nuxt.js
sites (the `nuxt_scraper` package and its predecessor `nuxtflow`). Browser
automation is not part of it. The modelled parts are:

- **Hydration of a Nuxt 3 payload.** The payload is a flat JSON array whose
  slots refer to one another by index. Dicts carrying the markers `$d`,
  `$s`, `$m`, `$b` and `$r` stand for dates, sets, maps, big integers and
  regular expressions.
  - `Hydration.Hydrator` is the recursive, cache-driven hydrator. It is a
    class whose `cache` map is updated in place, as the source's `cache`
    dict is.
  - `Expansion` states what each hydrated slot must hold, one level deep.
  - Every method of the hydrator is proved against that statement.
  - A slot `Raises` when hydrating it fails on its own account. A slot is
    `Unhydratable` when no fully hydrated cache (`Sound`) can hold it,
    because it or a slot it reaches raises. Whether the parsed data comes
    back unhydrated depends only on whether the root slot is
    `Unhydratable`.
- **The parser's entry points** (`NuxtParser`, `FlowParser`): parsing the
  `__NUXT_DATA__` text, deserialising, normalising the result of the
  combined extraction script, and the guards on browser results.
- **`validate_meeting_date`** (`MeetingDates`): the day check on API and
  `__NUXT__` race-meeting data.
- **`merge_stealth_configs`** (`Stealth`): merging anti-detection settings.
- **`find_api_response`** (`ApiCapture`): choosing a captured API response
  by URL fragment.

How Python values are represented:

- Values of JSON shape are the `JsonValues.Json` datatype. A dict keeps its
  insertion order as a sequence of pairs.
- Hydrated values are `Hydrated.HVal`. Every container the hydrator creates
  belongs to one slot and is referred to as `Node(slot)`. So Python object
  identity (shared and cyclic references) is identity of slots, and the
  container's contents live in the cache entry of that slot.
- Python `set` and `dict` insertion follow Python's hash equality
  (`True == 1 == 1.0`). An existing equal member or key keeps its place.
- Calls into code that is not modelled are parameters:
  - `json.loads` is `parse: string -> Option<Json>`; `None` means the text
    is not JSON;
  - whether `re.compile` accepts a pattern body is `compiles: string -> bool`.

## Model

| member | source | states |
|---|---|---|
| Hydrated.KeyOf | nuxt_scraper/parser.py:127-141 | Exactly the lists, dicts, sets and maps are unhashable (their key is `KUnhashable`). |
| Hydrated.NumericKeys | nuxt_scraper/parser.py:127-141 | Python equality of set members and map keys: `True == 1`, `False == 0`, an int equals a float iff their values agree, and no string equals a number. |
| Hydrated.SetAdd | nuxt_scraper/parser.py:131 | `set.add` keeps members pairwise unequal, keeps every old member, and holds the new value or an equal member; nothing else enters. |
| Hydrated.SetBuild | nuxt_scraper/parser.py:127-131 | Building a set succeeds iff every member is hashable; the result has no two equal members and only values that were added. |
| Hydrated.SetBuildCovers | nuxt_scraper/parser.py:129-131 | Every value added to a set is represented in it by an equal member. |
| Hydrated.MapPut | nuxt_scraper/parser.py:141 | `m[k] = v` appends `(k, v)` when no equal key exists; otherwise the first equal key keeps its place and its key object and takes `v`. Pairs with other keys are unchanged; distinct keys stay distinct and every pair whose key equals `k` holds `v`. |
| Hydrated.MapBuild | nuxt_scraper/parser.py:136-141 | Building a map succeeds iff every key is hashable; its keys are pairwise unequal and it has at most as many entries as pairs. |
| Hydrated.MapBuildLast | nuxt_scraper/parser.py:136-141 | Every key assigned is in the built map, and looking it up gives the value of the last pair whose key equals it. |
| Hydrated.DictPut | nuxt_scraper/parser.py:190 | `d[k] = v` on a string-keyed dict appends a new key and overwrites an existing one in place. |
| Hydrated.DictBuildUnique | nuxt_scraper/parser.py:187-191 | Assigning distinct keys in order rebuilds exactly those entries, in order. |
| SpecialValues.TagOf | nuxt_scraper/parser.py:111-191 | Markers are tested by key presence in the fixed order `$d`, `$s`, `$m`, `$b`, `$r`, else plain dict; each branch is characterised both ways. |
| SpecialValues.DecodeDate | nuxt_scraper/parser.py:113-123 | A bool, int or float payload gives a date at that many milliseconds; any other payload keeps the marker dict itself. |
| SpecialValues.Trunc | nuxt_scraper/parser.py:147 | `int()` of a float truncates toward zero. |
| SpecialValues.DecodeBigInt | nuxt_scraper/parser.py:144-153 | A `None`, list or dict payload raises (`TypeError` is not caught). A string gives the integer `ParseInt` reads from it, or keeps the dict when `int()` rejects it. An int is returned, a bool gives 0 or 1, and a float is truncated toward zero. |
| SpecialValues.ParseIntFormatInt | nuxt_scraper/parser.py:147 | `int()` of the decimal text of any integer gives that integer back (the interpreter's digit limit is not modelled; see Left out). |
| SpecialValues.BigIntRoundTrip | nuxt_scraper/parser.py:144-149 | `{"$b": str(n)}` decodes to `n` for every integer `n` (the interpreter's digit limit is not modelled; see Left out). |
| SpecialValues.LastIndexOf | nuxt_scraper/parser.py:160 | `str.rfind`: -1 iff the character is absent, else the position of its last occurrence. |
| SpecialValues.DecodeRegExp | nuxt_scraper/parser.py:155-183 | `/body/flags` with a compilable body gives a pattern with the `i`, `m` and `s` flags of the text after the last slash. Other text is returned as the string. A non-string payload keeps the dict. |
| SpecialValues.RegExpRoundTrip | nuxt_scraper/parser.py:158-175 | `"/" + body + "/" + flags` decodes to `body` with exactly the flags named. |
| SpecialValues.GlobalFlagIgnored | nuxt_scraper/parser.py:164-171 | Adding the JavaScript `g` flag changes nothing: `/test/gi` turns on IGNORECASE only. |
| Expansion.RefAll | nuxt_scraper/parser.py:197-198 | Each child reference resolves, position by position, to its hydrated value. |
| Expansion.UnpackAllPairs | nuxt_scraper/parser.py:138 | Unpacking `for key_index, value_index in ...` succeeds iff every entry is a pair; the pairs unpacked are the entries. |
| Expansion.ExpandFailsIffRaises | nuxt_scraper/parser.py:125-153 | Once a slot's children are cached, its expansion fails exactly when the slot `Raises`: a `$b` payload of the wrong type, a `$s` or `$m` payload that cannot be iterated, a `$m` item that is not a pair, or a set member or map key whose hydrated value is unhashable. No other slot can raise. |
| Expansion.SoundConsistent | nuxt_scraper/parser.py:127-141 | In a fully hydrated cache, every slot's value is hashable exactly when its slot says so. |
| Expansion.SoundSlotNoRaise | nuxt_scraper/parser.py:125-153 | No slot held by a fully hydrated cache `Raises`. |
| Expansion.RaisesUnhydratable | nuxt_scraper/parser.py:125-153 | A slot that `Raises` on its own account is `Unhydratable`: no fully hydrated cache holds it. |
| Expansion.ListItemUnhydratable | nuxt_scraper/parser.py:197-198 | A list with an item that refers to an `Unhydratable` slot is `Unhydratable` itself: the exception from the item escapes the list. |
| Expansion.SetMemberUnhydratable | nuxt_scraper/parser.py:129-130 | A set with a member that refers to an `Unhydratable` slot is `Unhydratable` itself. |
| Expansion.MapPartUnhydratable | nuxt_scraper/parser.py:138-140 | A map one of whose pairs has a key or a value that refers to an `Unhydratable` slot is `Unhydratable` itself. |
| Expansion.DictValueUnhydratable | nuxt_scraper/parser.py:189-190 | A dict with a value that refers to an `Unhydratable` slot is `Unhydratable` itself. |
| Expansion.RefHashes | nuxt_scraper/parser.py:127-141 | A cached reference's hydrated value is hashable exactly when the slot it names says so: a container slot never, a date, big integer or regexp slot by its decoded value, any other literal always. |
| Expansion.ExpandScalar | nuxt_scraper/parser.py:105-108 | A value cached as is is never a container reference, and a non-dict slot is cached as its own value. |
| Expansion.PrimitiveSlot | nuxt_scraper/parser.py:105-108 | A hydrated `None`, string, bool or number slot holds and returns its stored value. |
| Expansion.ListSlot | nuxt_scraper/parser.py:193-199 | A hydrated list slot holds a list of the same length whose items are the hydrated items. |
| Expansion.DictSlot | nuxt_scraper/parser.py:185-191 | A plain dict slot with distinct keys holds the same keys in order, each mapped to its hydrated value. |
| Expansion.SelfReference | nuxt_scraper/parser.py:194-198 | A list that refers to its own slot contains itself (the container is cached before its items are hydrated). |
| Expansion.SharedIdentity | nuxt_scraper/parser.py:99-101 | Two references to one slot hydrate to the same value, and a container value names a cached container slot. |
| Hydration.Hydrator.constructor | nuxt_scraper/parser.py:246 | A run starts with an empty cache. |
| Hydration.Hydrator.Hydrate | nuxt_scraper/parser.py:75-108 | A non-int is returned as is; an out-of-range index gives `None`; a cached slot returns its cached value and changes nothing. Otherwise the slot is hydrated. Every slot added is fully expanded and old entries are untouched. If it raises, the slot `x` names is `Unhydratable`: no fully hydrated cache holds it. Also, some slot that was not cached before the call `Raises` on its own account. |
| Hydration.Hydrator.HydrateSlot | nuxt_scraper/parser.py:103-108 | A slot not yet cached is cached and returned. Scalars are cached as themselves; lists and dicts go to their branches. If it raises, the slot is `Unhydratable` and some slot not cached before the call `Raises`. |
| Hydration.Hydrator.HydrateObject | nuxt_scraper/parser.py:110-191 | The marker branches: dates, big integers and regexps are cached as decoded. Sets, maps and plain dicts are cached empty first and then filled. If it raises, the slot is `Unhydratable` and some slot not cached before the call `Raises`. A big integer that raises leaves the cache unchanged. |
| Hydration.Hydrator.HydrateList | nuxt_scraper/parser.py:193-199 | The list cached for the slot ends as the hydrated items in order; the slot and every slot added on the way are fully expanded. If it raises, the list slot is `Unhydratable` and some slot not cached before the call `Raises`. |
| Hydration.Hydrator.HydrateSet | nuxt_scraper/parser.py:125-132 | The set cached for the slot ends as the set built from the hydrated members. If it raises, the set slot is `Unhydratable`. Also, either the set slot itself `Raises` (a non-iterable payload or an unhashable member) or some slot not cached before the call does. |
| Hydration.Hydrator.HydrateMap | nuxt_scraper/parser.py:134-142 | The map cached for the slot ends as the map built from the hydrated pairs, key before value. If it raises, the map slot is `Unhydratable`. Also, either the map slot itself `Raises` (a non-iterable payload, a non-pair or an unhashable key) or some slot not cached before the call does. |
| Hydration.Hydrator.HydratePair | nuxt_scraper/parser.py:139-140 | Hydrates a key and then a value; both results are the references' hydrated values. If it raises, the key or the value names an `Unhydratable` slot. |
| Hydration.Hydrator.HydrateDict | nuxt_scraper/parser.py:185-191 | The dict cached for the slot ends as the dict built by assigning each key its hydrated value in order. If it raises, the dict slot is `Unhydratable`. |
| NuxtParser.RootIndex | nuxt_scraper/parser.py:252-257 | Hydration starts at slot 1 when there are at least two slots, else at slot 0. |
| NuxtParser.Deserialize | nuxt_scraper/parser.py:206-272 | Text that is not JSON raises `DataParsingError`. A non-string in JSON-string mode is returned unchanged. A non-list or empty list is returned as is. Otherwise either every cached slot is fully expanded and the root is the root slot's value, or the parsed data is returned. The data comes back only when the root slot is `Unhydratable` and some slot `Raises`. |
| NuxtParser.DeserializeChecked | nuxt_scraper/parser.py:226-230 | As `Deserialize` (a payload comes back unhydrated only when its root slot is `Unhydratable`), except that a non-string in JSON-string mode raises `DataParsingError`. |
| NuxtParser.FallbackIffUnhydratable | nuxt_scraper/parser.py:252-272 | A non-empty list comes back unhydrated exactly when its root slot is `Unhydratable`, i.e. when hydrating from the root raises; otherwise it is hydrated. |
| NuxtParser.UnreachableRaiseHydrates | nuxt_scraper/parser.py:252-254 | Worked example: `[{"$b": null}, "x"]` hydrates to `"x"`. Slot 0 `Raises`, but hydration starts at slot 1, which does not refer to it. |
| NuxtParser.UnreachableSetHydrates | nuxt_scraper/parser.py:185-191 | Worked example: `[0, {"a": 2}, "v", {"$s": 5}]` hydrates to the dict `{"a": "v"}`. The set in slot 3 `Raises`, but nothing the root refers to reaches it. |
| NuxtParser.NoRaiseHydrates | nuxt_scraper/parser.py:245-272 | The fallback to the raw data needs a slot that `Raises`: a non-empty list none of whose slots raises always comes back hydrated. |
| NuxtParser.BigIntPayloadNotUnhydrated | nuxt_scraper/parser.py:144-153 | `[0, {"$b": s}]` never comes back unhydrated, for any string `s`: a string payload parses or keeps the dict, and never raises. |
| NuxtParser.SetPayloadNotUnhydrated | nuxt_scraper/parser.py:125-132 | Worked example: `[0, {"s": 2}, {"$s": [3]}, "a"]` has a well-formed set, so deserializing it never returns the data unhydrated. |
| NuxtParser.ParseNuxtJson | nuxt_scraper/parser.py:275-306 | Empty or non-JSON text raises as in `nuxtflow`. Otherwise the parsed value is returned, deserialised when asked: hydrated unless its root slot is `Unhydratable`. |
| NuxtParser.ValidateCombinedResult | nuxt_scraper/parser.py:375-394 | Succeeds iff the result is a non-empty dict with truthy `data` and `method`, and returns it unchanged; the two failure messages are distinguished. |
| NuxtParser.ParseNuxtResult | nuxt_scraper/parser.py:309-354 | Raises `NuxtDataNotFound` exactly when `validate_combined_result` would. `element` data is parsed as text; `window` data is deserialised only when asked and only if it is a list, and comes back unhydrated only when its root slot is `Unhydratable`. Any other method raises "Unknown extraction method". |
| FlowParser.ParseNuxtJson | nuxtflow/parser.py:27-50 | Fails iff the text is blank or not JSON, always with `DataParsingError` carrying the text; otherwise the parsed value. |
| FlowParser.BlankNeverParsed | nuxtflow/parser.py:40-41 | Blank text fails with "content is empty" whatever the JSON parser would do. |
| FlowParser.ValidateExtractedResult | nuxtflow/parser.py:53-68 | `None` raises `NuxtDataNotFound`; every other value, falsy ones included, is returned unchanged. The `nuxt_scraper` copy (nuxt_scraper/parser.py, lines 357-372) is identical. |
| MeetingDates.DatePart | nuxt_scraper/utils.py:133 | The date part is the longest prefix without `T`, ending at the first `T` or at the end of the text. |
| MeetingDates.FirstItem | nuxt_scraper/utils.py:129-130 | `x[0]` on a truthy value yields a list's first item or a string's first character, and raises otherwise. |
| MeetingDates.ValidateMeetingDate | nuxt_scraper/utils.py:89-150 | The loops return exactly `MeetingDateMatches`: API groups first, then the `__NUXT__` layout, with any exception giving `False`. |
| MeetingDates.DateMatchIsDatePart | nuxt_scraper/utils.py:131-134 | A date field matches iff it is a string whose date part is the expected date. |
| MeetingDates.IsoTimestampMatches | nuxt_scraper/utils.py:97 | `YYYY-MM-DDTHH:MM:SS.000Z` matches exactly its own day. |
| MeetingDates.FirstDecisiveGroup | nuxt_scraper/utils.py:127-134 | Groups without meetings are skipped, and the first group that has one decides. |
| MeetingDates.ApiFirstMeetingDecides | nuxt_scraper/utils.py:120-134 | In an API response, the first meeting of the first group with meetings decides, by the date part of its timestamp. |
| MeetingDates.NuxtFirstMeetingDecides | nuxt_scraper/utils.py:136-146 | In a `__NUXT__` payload, the first meeting of the first group decides, by the date part of its timestamp. |
| Stealth.Defaults | nuxt_scraper/utils.py:35-51 | A new configuration's attribute dictionary holds the 11 public options, distinct and none `None`. The two `init=False` internal fields are not in it. |
| Stealth.StealthConfig.constructor | nuxt_scraper/utils.py:15-51 | `StealthConfig()` holds the default attributes. |
| Stealth.MergeAttrs | nuxt_scraper/utils.py:70-78 | The merged configuration never holds an attribute twice. |
| Stealth.MergeStealthConfigs | nuxt_scraper/utils.py:54-78 | No override returns the base object itself. Otherwise a new configuration is built from the defaults by walking the base's attributes in order. The `nuxtflow` copy (nuxtflow/utils.py, lines 49-71) is identical. |
| Stealth.MergedPublicField | nuxt_scraper/utils.py:71-77 | A public attribute of the base takes the override's value unless that is `None`, else the base's. One the base lacks keeps its default. |
| Stealth.MergedPrivateField | nuxt_scraper/utils.py:48-72 | Internal attributes are never copied: a merged configuration keeps what it started with for them, so one built from the defaults reads `None` (the class default) for the resolved user agent and viewport. |
| ApiCapture.FirstMatch | nuxt_scraper/extractor.py:504-507 | The position of the first response whose URL contains the pattern. No earlier response matches, and `None` iff no response matches. |
| ApiCapture.FindApiResponse | nuxt_scraper/extractor.py:479-513 | Returns the first match. Failing that, the first response when the fallback is asked for and one exists, else `None`. Whatever is returned is one of the responses. |

## Left out

- Browser automation is not modelled: navigation steps, the Playwright
  session, anti-detection behaviour, proxies, timeouts and the capture of
  responses in `extractor.py`. `find_api_response` receives the captured
  list as a value.
- The text of decoder errors (`{e}` in messages) is not modelled. A message
  is its fixed prefix only, because the detail comes from `json.loads`.
- `str(method)` of a non-string extraction method is not modelled. The
  "Unknown extraction method" message then carries an empty name.
- NuxtParser.ParseNuxtResult: requires `element` data to be a string. That
  is the text content the extraction script returns. Other data would raise
  `AttributeError` in `raw.strip()`, which is not a `NuxtFlowException`.
- NuxtParser.ParseNuxtResult: the handler for `JSONDecodeError` and
  `TypeError` at nuxt_scraper/parser.py:349-354 is not modelled. Neither
  error can reach it: `parse_nuxt_json` converts decode errors itself, and
  deserialisation catches every exception.
- `datetime.fromtimestamp` is not modelled. A date is kept as its
  millisecond count, so `OverflowError`/`OSError` for out-of-range
  timestamps, local-time conversion and microsecond rounding are absent.
- Floats are exact reals: NaN and infinities are not represented.
- SpecialValues.ParseInt: the interpreter's limit on the number of digits
  `int()` converts (`sys.int_max_str_digits`, 4300 by default since Python
  3.11, configurable and absent before) is not modelled. A longer string
  raises `ValueError` there, so the `$b` dict is kept. `ParseIntFormatInt`
  and `BigIntRoundTrip` hold for every integer in the model, but for the
  interpreter only below that limit.
- `int()` accepts non-ASCII Unicode digits; the model accepts ASCII digits
  (with `_` separators, sign and surrounding whitespace) only.
- `RecursionError` on very deep payloads is not modelled; hydration depth
  is unbounded in the model.
- The fallback branch at nuxt_scraper/parser.py:200-202 is not modelled. It
  handles Python values that JSON cannot produce.
- JSON objects with repeated keys are represented, but `json.loads` keeps
  the last value while the model's lookup finds the first. Inputs are
  assumed to have distinct keys wherever that matters (`DictSlot`,
  `MergedPublicField`).
- Stealth.MergeStealthConfigs: `getattr(override, name, None)` is read from
  the override's instance attributes. The fallback to the class's default
  for an attribute deleted from an instance is not modelled.
- A non-string input in JSON-string mode is documented as a hard error,
  but the code returns the input (`NuxtParser.Deserialize`). The corrected
  behaviour is `NuxtParser.DeserializeChecked` (see Findings).
- The hydrator's logging and the `logger.info` calls are left out.

## Findings

| source | as written | input that shows it | evidently intended | confidence | as-written member | corrected member |
|---|---|---|---|---|---|---|
| nuxt_scraper/parser.py:226-230 | In JSON-string mode a non-string input raises `DataParsingError("Expected JSON string but got non-string type")` inside the `try`. The `except Exception` at line 264 catches it, so the input comes back unchanged. | `deserialize_nuxt3_data([0, 1], is_json_string=True)` returns `[0, 1]` | The `DataParsingError` reaches the caller | not executed; medium | NuxtParser.Deserialize | NuxtParser.DeserializeChecked |
