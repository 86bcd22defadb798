/** The scraper's exceptions that the modelled entry points raise, and the
    outcome of an operation that either returns or raises one of them. */
module Errors {
  import opened JsonValues

  datatype NuxtError =
    /** The page holds no Nuxt payload, or the browser returned nothing usable. */
    | NuxtDataNotFound(message: string)
    /** The payload could not be parsed; `rawContent` is the text, when known. */
    | DataParsingError(message: string, rawContent: Option<string>)

  datatype Outcome<+T> = Ok(value: T) | Fail(error: NuxtError)
}
