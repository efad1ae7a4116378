/**
 * What the scripts receive from the outside world. The HTTP and search
 * calls themselves are not modelled: their outcomes are inputs.
 */
module Search {
  import opened Wrappers

  /**
   * One item of a search reply's `organic` list: its `link` and `title`
   * keys (None when absent), and the netloc that `urlparse` gives for the link.
   */
  datatype Hit = Hit(link: Option<string>, title: Option<string>, netloc: string)

  /**
   * A search API call: a `RequestException` (a failed request, a non-2xx
   * status, or a body that is not JSON), or the decoded body, with or
   * without an `organic` key.
   */
  datatype Reply = RequestError | Body(organic: Option<seq<Hit>>)

  /** An HTTP GET: an exception, or a response with its status code and (parsed) body. */
  datatype Fetch<T> = Failure | Response(status: int, body: T)

  /** `results.get("organic", [])` for a successful reply. */
  function OrganicOrEmpty(organic: Option<seq<Hit>>): seq<Hit> {
    organic.GetOr([])
  }
}
