/** The remote-fetch capability: `requests.get(uri).json()`. */
module Http {
  import opened Wrappers
  import opened Documents

  /**
   * The web as the resolver sees it. `body(uri)` is the parsed JSON body a
   * GET of `uri` yields, or None when the request or the JSON decoding
   * raises. `requests` records every GET made, in order; its length is the
   * fetch counter.
   */
  class Web {
    const body: Uri -> Option<Json>
    ghost var requests: seq<Uri>

    constructor (body: Uri -> Option<Json>)
      ensures this.body == body && requests == []
    {
      this.body := body;
      requests := [];
    }

    /** One GET of `uri`. */
    method Get(uri: Uri) returns (r: Option<Json>)
      modifies this
      ensures r == body(uri)
      ensures requests == old(requests) + [uri]
    {
      r := body(uri);
      requests := requests + [uri];
    }
  }
}
