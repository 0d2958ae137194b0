/**
 * The parts of Go's `http.Request` and `url.URL` that the tunnel reads or
 * rewrites, as a value (`Request`) and as the mutable object that both
 * `handle` functions update field by field (`HttpRequest`).
 */
module Http {
  import opened Headers

  /** The fields of `url.URL` in play: `url.Parse("//h:443")` gives scheme "", host "h:443", path "". */
  datatype Url = Url(scheme: string, host: string, path: string)

  datatype Request = Request(
    proto: string,
    verb: string,        // Go's Method (`method` is a Dafny keyword)
    host: string,
    requestURI: string,
    url: Url,
    header: Header)

  /** The reply both ends send once a tunnel to the destination stands. */
  function Established(proto: string): (s: string)
    ensures |s| > |proto| && s[..|proto|] == proto
  {
    proto + " 200 Connection established\r\n\r\n"
  }

  /** A request being rewritten in place, as `*http.Request` is. */
  class HttpRequest {
    var proto: string
    var verb: string
    var host: string
    var requestURI: string
    var url: Url
    var header: Header

    /** The request's current contents. */
    function Value(): Request
      reads this
    {
      Request(proto, verb, host, requestURI, url, header)
    }

    constructor (r: Request)
      ensures Value() == r
    {
      proto := r.proto;
      verb := r.verb;
      host := r.host;
      requestURI := r.requestURI;
      url := r.url;
      header := r.header;
    }

    /** `req.Header.Add(key, value)`: nothing but the header changes. */
    method AddHeader(key: string, value: string)
      modifies this
      ensures Value() == old(Value()).(header := Add(old(header), key, value))
    {
      header := Add(header, key, value);
    }
  }
}
