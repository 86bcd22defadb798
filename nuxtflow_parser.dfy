/** The `nuxtflow` package's parser: the text of the `__NUXT_DATA__` element
    read as JSON, with no hydration step, and the guard on what the browser
    returned.  The `nuxt_scraper` parser builds on both. */
module FlowParser {
  import opened JsonValues
  import opened Errors

  const EmptyContent := "Nuxt data content is empty"
  const JsonFailure := "Failed to parse Nuxt data as JSON: "
  const NotFoundOrEmpty := "__NUXT_DATA__ element not found or empty"

  /** `parse_nuxt_json(raw)`, given `json.loads` as `parse`: empty or
      whitespace-only text and text that is not JSON both raise
      `DataParsingError` carrying the text; otherwise the parsed value. */
  function ParseNuxtJson(raw: string, parse: string -> Option<Json>): (r: Outcome<Json>)
    ensures r.Fail? <==> Blank(raw) || parse(raw).None?
    ensures r.Fail? ==> r.error.DataParsingError? && r.error.rawContent == Some(raw)
    ensures Blank(raw) ==> r.error.message == EmptyContent
    ensures !Blank(raw) && parse(raw).None? ==> r.error.message == JsonFailure
    ensures r.Ok? ==> Some(r.value) == parse(raw)
  {
    if Blank(raw) then Fail(DataParsingError(EmptyContent, Some(raw)))
    else match parse(raw)
      case None => Fail(DataParsingError(JsonFailure, Some(raw)))
      case Some(j) => Ok(j)
  }

  /** The emptiness check comes before the parser: blank text fails the same
      way whatever the parser would make of it. */
  lemma BlankNeverParsed(raw: string, parse1: string -> Option<Json>, parse2: string -> Option<Json>)
    requires Blank(raw)
    ensures ParseNuxtJson(raw, parse1) == ParseNuxtJson(raw, parse2)
    ensures ParseNuxtJson(raw, parse1) == Fail(DataParsingError(EmptyContent, Some(raw)))
  {
  }

  /** `validate_extracted_result(value)`: `None` raises `NuxtDataNotFound`;
      any other value, falsy ones such as "" included, is returned as is. */
  function ValidateExtractedResult(value: Json): (r: Outcome<Json>)
    ensures r.Ok? <==> !value.JNull?
    ensures r.Ok? ==> r.value == value
    ensures r.Fail? ==> r.error == NuxtDataNotFound(NotFoundOrEmpty)
  {
    if value.JNull? then Fail(NuxtDataNotFound(NotFoundOrEmpty)) else Ok(value)
  }
}
