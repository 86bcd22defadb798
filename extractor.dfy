/** `NuxtExtractor.find_api_response`: picking one of the API responses the
    browser captured (each a dict with the request `url` and the decoded
    `data`) by a fragment of its URL. */
module ApiCapture {
  import opened JsonValues

  /** A captured response: `{"url": ..., "data": ...}`. */
  datatype ApiResponse = ApiResponse(url: string, data: Json)

  /** The position of the first response whose URL contains `pattern`. */
  function FirstMatch(rs: seq<ApiResponse>, pattern: string): (r: Option<nat>)
    ensures r.Some? ==> r.value < |rs| && IsSubstring(pattern, rs[r.value].url)
    ensures r.Some? ==> forall j :: 0 <= j < r.value ==> !IsSubstring(pattern, rs[j].url)
    ensures r.None? <==> forall j :: 0 <= j < |rs| ==> !IsSubstring(pattern, rs[j].url)
  {
    if rs == [] then None
    else if IsSubstring(pattern, rs[0].url) then Some(0)
    else match FirstMatch(rs[1..], pattern)
      case None => None
      case Some(n) => Some(n + 1)
  }

  /** `find_api_response(api_responses, url_pattern, fallback_to_first)`: the
      first response whose URL contains the pattern; failing that the first
      response when the fallback is asked for and there is one; else `None`. */
  method FindApiResponse(rs: seq<ApiResponse>, pattern: string, fallbackToFirst: bool) returns (r: Option<ApiResponse>)
    ensures FirstMatch(rs, pattern).Some? ==> r == Some(rs[FirstMatch(rs, pattern).value])
    ensures FirstMatch(rs, pattern).None? && fallbackToFirst && rs != [] ==> r == Some(rs[0])
    ensures FirstMatch(rs, pattern).None? && (!fallbackToFirst || rs == []) ==> r == None
    ensures r.Some? ==> r.value in rs
    ensures rs == [] ==> r == None
  {
    var k := 0;
    while k < |rs|
      invariant 0 <= k <= |rs|
      invariant forall j :: 0 <= j < k ==> !IsSubstring(pattern, rs[j].url)
    {
      if IsSubstring(pattern, rs[k].url) {
        return Some(rs[k]);
      }
      k := k + 1;
    }
    if fallbackToFirst && rs != [] {
      return Some(rs[0]);
    }
    return None;
  }
}
