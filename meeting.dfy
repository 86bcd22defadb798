/** `validate_meeting_date`: whether scraped race-meeting data is for the
    expected day.  Two layouts are tried: an API response whose `data` holds
    `meetingsGrouped`, then the `__NUXT__` layout whose `data` is a list whose
    first item holds `meetings`.  The first meeting found decides; any
    exception along the way is caught and reported as `False`. */
module MeetingDates {
  import opened JsonValues

  /** `s.split("T")[0] if "T" in s else s`: the text before the first `T`. */
  function DatePart(s: string): (d: string)
    ensures d <= s
    ensures 'T' !in d
    ensures |d| < |s| ==> s[|d|] == 'T'
  {
    if s == [] then []
    else if s[0] == 'T' then []
    else [s[0]] + DatePart(s[1..])
  }

  /** Whether the date field's value `d` is the expected date: `"T" in d`
      raises for a value that is not a string, list or dict, and only a
      string can be split; otherwise the value is compared as it is. */
  function DateMatch(d: Json, expected: string): bool
  {
    match Contains(d, "T")
    case None => false
    case Some(true) => d.JStr? && DatePart(d.s) == expected
    case Some(false) => d == JStr(expected)
  }

  /** The outcome of looking at one group: it decides the answer, or it holds
      no meeting and the scan goes on. */
  datatype Scan = Decides(b: bool) | Continues

  /** `meeting.get(date_field, "")` compared with the expected date; a meeting
      that is not a dict has no `get` and raises. */
  function MeetingVerdict(m: Json, expected: string, field: string): Scan
  {
    if m.JObj? then Decides(DateMatch(Get(m.entries, field, JStr("")), expected))
    else Decides(false)
  }

  /** `x[0]` on a truthy value: a list's first item, a string's first
      character; a dict (whose keys are strings) or a number raises. */
  function FirstItem(x: Json): (r: Option<Json>)
    requires Truthy(x)
    ensures r.Some? <==> x.JArr? || x.JStr?
    ensures x.JArr? ==> r == Some(x.items[0])
  {
    match x
    case JArr(items) => Some(items[0])
    case JStr(s) => Some(JStr([s[0]]))
    case _ => None
  }

  /** One group of the API layout: `group.get("meetings", [])`, and when that
      is truthy its first item decides. */
  function ApiGroupVerdict(group: Json, expected: string, field: string): Scan
  {
    if !group.JObj? then Decides(false)
    else
      var ms := Get(group.entries, "meetings", JArr([]));
      if !Truthy(ms) then Continues
      else match FirstItem(ms)
        case None => Decides(false)
        case Some(m) => MeetingVerdict(m, expected, field)
  }

  /** One group of the `__NUXT__` layout: the first meeting iterated out of
      `group.get("meetings", [])` decides. */
  function NuxtGroupVerdict(group: Json, expected: string, field: string): Scan
  {
    if !group.JObj? then Decides(false)
    else match Iterate(Get(group.entries, "meetings", JArr([])))
      case None => Decides(false)
      case Some(ms) => if ms == [] then Continues else MeetingVerdict(ms[0], expected, field)
  }

  function GroupVerdict(group: Json, nuxtForm: bool, expected: string, field: string): Scan
  {
    if nuxtForm then NuxtGroupVerdict(group, expected, field) else ApiGroupVerdict(group, expected, field)
  }

  /** The groups in order, up to the first that decides. */
  function ScanGroups(groups: seq<Json>, nuxtForm: bool, expected: string, field: string): Scan
  {
    if groups == [] then Continues
    else
      var v := GroupVerdict(groups[0], nuxtForm, expected, field);
      if v.Decides? then v else ScanGroups(groups[1..], nuxtForm, expected, field)
  }

  /** The API layout, when `"meetingsGrouped" in api_data` holds:
      `api_data["meetingsGrouped"]` raises unless `api_data` is a dict, and the
      groups must be iterable. */
  function ApiForm(api: Json, expected: string, field: string): Scan
  {
    if !api.JObj? then Decides(false)
    else match Iterate(Get(api.entries, "meetingsGrouped", JNull))
      case None => Decides(false)
      case Some(groups) => ScanGroups(groups, false, expected, field)
  }

  /** The `__NUXT__` layout: `data` is a non-empty list whose first item is a
      dict holding iterable `meetings`. */
  function NuxtForm(api: Json, expected: string, field: string): bool
  {
    if !api.JArr? || api.items == [] then false
    else
      var first := api.items[0];
      if !first.JObj? || !HasKey(first.entries, "meetings") then false
      else match Iterate(Lookup(first.entries, "meetings"))
        case None => false
        case Some(groups) =>
          var s := ScanGroups(groups, true, expected, field);
          s.Decides? && s.b
  }

  /** The whole check: data that is not a dict with a `data` key does not
      match; `"meetingsGrouped" in api_data` raising ends it with `False`; an
      API group that decides is the answer; otherwise the `__NUXT__` layout is
      tried. */
  function MeetingDateMatches(data: Json, expected: string, field: string): bool
  {
    if !data.JObj? || !HasKey(data.entries, "data") then false
    else
      var api := Lookup(data.entries, "data");
      match Contains(api, "meetingsGrouped")
      case None => false
      case Some(grouped) =>
        var first := if grouped then ApiForm(api, expected, field) else Continues;
        if first.Decides? then first.b else NuxtForm(api, expected, field)
  }

  /** `validate_meeting_date(data, expected_date, date_field)`. */
  method ValidateMeetingDate(data: Json, expected: string, field: string) returns (r: bool)
    ensures r == MeetingDateMatches(data, expected, field)
  {
    if !data.JObj? || !HasKey(data.entries, "data") {
      return false;
    }
    var api := Lookup(data.entries, "data");
    var grouped := Contains(api, "meetingsGrouped");
    if grouped.None? {
      return false;
    }
    if grouped.value {
      if !api.JObj? {
        return false;
      }
      var it := Iterate(Lookup(api.entries, "meetingsGrouped"));
      if it.None? {
        return false;
      }
      var groups := it.value;
      var k := 0;
      while k < |groups|
        invariant 0 <= k <= |groups|
        invariant ScanGroups(groups, false, expected, field) == ScanGroups(groups[k..], false, expected, field)
      {
        var v := ApiGroupVerdict(groups[k], expected, field);
        if v.Decides? {
          return v.b;
        }
        assert groups[k..][1..] == groups[k + 1..];
        k := k + 1;
      }
    }
    if api.JArr? && api.items != [] {
      var first := api.items[0];
      if first.JObj? && HasKey(first.entries, "meetings") {
        var it := Iterate(Lookup(first.entries, "meetings"));
        if it.None? {
          return false;
        }
        var groups := it.value;
        var k := 0;
        while k < |groups|
          invariant 0 <= k <= |groups|
          invariant ScanGroups(groups, true, expected, field) == ScanGroups(groups[k..], true, expected, field)
        {
          var v := NuxtGroupVerdict(groups[k], expected, field);
          if v.Decides? {
            return v.b;
          }
          assert groups[k..][1..] == groups[k + 1..];
          k := k + 1;
        }
      }
    }
    return false;
  }

  /** For a string, `"T" in s` holds exactly when some character is `T`. */
  lemma TInText(s: string)
    ensures IsSubstring("T", s) <==> 'T' in s
  {
    if 'T' in s {
      var i :| 0 <= i < |s| && s[i] == 'T';
      assert OccursAt("T", s, i);
    }
    if IsSubstring("T", s) {
      var i :| 0 <= i <= |s| - 1 && OccursAt("T", s, i);
      assert s[i] == s[i..i + 1][0];
    }
  }

  /** Only a string can match, and it matches exactly when its date part
      (all of it when it has no `T`) is the expected date. */
  lemma DateMatchIsDatePart(d: Json, expected: string)
    ensures DateMatch(d, expected) <==> d.JStr? && DatePart(d.s) == expected
  {
    if d.JStr? {
      TInText(d.s);
      if 'T' !in d.s {
        var p := DatePart(d.s);
        assert |p| == |d.s|;
        assert p == d.s;
      }
    }
  }

  /** An ISO timestamp `YYYY-MM-DDTHH:MM:SS.000Z` matches its day. */
  lemma IsoTimestampMatches(day: string, time: string, expected: string)
    requires 'T' !in day
    ensures DateMatch(JStr(day + ['T'] + time), expected) <==> day == expected
  {
    var s := day + ['T'] + time;
    DateMatchIsDatePart(JStr(s), expected);
    var p := DatePart(s);
    assert s[|day|] == 'T';
    assert p == day;
  }

  /** The first group that decides is the answer. */
  lemma {:induction false} FirstDecisiveGroup(groups: seq<Json>, k: nat, nuxtForm: bool, expected: string, field: string)
    requires k < |groups|
    requires forall j :: 0 <= j < k ==> GroupVerdict(groups[j], nuxtForm, expected, field).Continues?
    requires GroupVerdict(groups[k], nuxtForm, expected, field).Decides?
    ensures ScanGroups(groups, nuxtForm, expected, field) == GroupVerdict(groups[k], nuxtForm, expected, field)
  {
    if k > 0 {
      var rest := groups[1..];
      assert forall j :: 0 <= j < k - 1 ==> rest[j] == groups[j + 1];
      FirstDecisiveGroup(rest, k - 1, nuxtForm, expected, field);
    }
  }

  /** An API response: groups before `k` hold no meetings, and the first
      meeting of group `k` carries the timestamp `ts` in the date field; the
      answer is whether the date part of `ts` is the expected date. */
  lemma ApiFirstMeetingDecides(data: Json, groups: seq<Json>, k: nat, ts: string, expected: string, field: string)
    requires data.JObj? && HasKey(data.entries, "data")
    requires Lookup(data.entries, "data").JObj?
    requires HasKey(Lookup(data.entries, "data").entries, "meetingsGrouped")
    requires Lookup(Lookup(data.entries, "data").entries, "meetingsGrouped") == JArr(groups)
    requires k < |groups|
    requires forall j :: 0 <= j < k ==>
      groups[j].JObj? && !Truthy(Get(groups[j].entries, "meetings", JArr([])))
    requires groups[k].JObj? && Get(groups[k].entries, "meetings", JArr([])).JArr?
    requires Get(groups[k].entries, "meetings", JArr([])).items != []
    requires Get(groups[k].entries, "meetings", JArr([])).items[0].JObj?
    requires Get(Get(groups[k].entries, "meetings", JArr([])).items[0].entries, field, JStr("")) == JStr(ts)
    ensures MeetingDateMatches(data, expected, field) <==> DatePart(ts) == expected
  {
    assert forall j :: 0 <= j < k ==> GroupVerdict(groups[j], false, expected, field).Continues?;
    FirstDecisiveGroup(groups, k, false, expected, field);
    DateMatchIsDatePart(JStr(ts), expected);
  }

  /** A `__NUXT__` payload (no `"meetingsGrouped"` item in the `data` list)
      whose first group's first meeting carries `ts` in the date field is
      decided by that meeting alone. */
  lemma NuxtFirstMeetingDecides(data: Json, items: seq<Json>, groups: seq<Json>, ms: seq<Json>, ts: string, expected: string, field: string)
    requires data.JObj? && HasKey(data.entries, "data")
    requires Lookup(data.entries, "data") == JArr(items)
    requires items != [] && JStr("meetingsGrouped") !in items
    requires items[0].JObj? && HasKey(items[0].entries, "meetings")
    requires Lookup(items[0].entries, "meetings") == JArr(groups)
    requires groups != [] && groups[0].JObj?
    requires Get(groups[0].entries, "meetings", JArr([])) == JArr(ms)
    requires ms != [] && ms[0].JObj?
    requires Get(ms[0].entries, field, JStr("")) == JStr(ts)
    ensures MeetingDateMatches(data, expected, field) <==> DatePart(ts) == expected
  {
    var api := JArr(items);
    assert Contains(api, "meetingsGrouped") == Some(false);
    assert NuxtGroupVerdict(groups[0], expected, field) == MeetingVerdict(ms[0], expected, field);
    assert ScanGroups(groups, true, expected, field) == MeetingVerdict(ms[0], expected, field);
    DateMatchIsDatePart(JStr(ts), expected);
  }
}
