/** The vocabulary of the `http` crate that the middleware reads from a request and a
    response: methods, protocol versions, URIs and status codes. Only the accessors the
    middleware calls are modelled, with the results the crate gives them. */
module Http {

  datatype Option<+T> = None | Some(value: T)

  datatype Result<+T, +E> = Ok(value: T) | Err(error: E)

  /** An octet of a header value. */
  newtype byte = b: int | 0 <= b < 256

  // ---------------------------------------------------------------- methods

  /** A request method: the nine standard ones, or an extension token. */
  datatype Method =
    | Options | Get | Post | Put | Delete | Head | Trace | Connect | Patch
    | Extension(name: string)

  /** Characters the crate admits in a method token (the `tchar` set of RFC 9110). */
  predicate IsTokenChar(c: char)
  {
    || ('a' <= c <= 'z') || ('A' <= c <= 'Z') || ('0' <= c <= '9')
    || c in "!#$%&'*+-.^_`|~"
  }

  predicate IsToken(s: string)
  {
    |s| > 0 && forall i :: 0 <= i < |s| ==> IsTokenChar(s[i])
  }

  const StandardMethodNames: set<string> :=
    {"OPTIONS", "GET", "POST", "PUT", "DELETE", "HEAD", "TRACE", "CONNECT", "PATCH"}

  /** The crate never builds an extension method whose text is a standard method's name
      (parsing "GET" yields the standard GET), and an extension is a non-empty token. */
  predicate ValidMethod(m: Method)
  {
    m.Extension? ==> IsToken(m.name) && m.name !in StandardMethodNames
  }

  /** The method's own text, as its `Display` implementation writes it. */
  function MethodText(m: Method): string
  {
    match m
    case Options => "OPTIONS"
    case Get => "GET"
    case Post => "POST"
    case Put => "PUT"
    case Delete => "DELETE"
    case Head => "HEAD"
    case Trace => "TRACE"
    case Connect => "CONNECT"
    case Patch => "PATCH"
    case Extension(name) => name
  }

  /** Parsing a method token, as `Method::from_bytes` does for a valid token: the nine
      standard names, matched case-sensitively, and an extension method otherwise. */
  function ParseMethod(s: string): Method
  {
    if s == "OPTIONS" then Options
    else if s == "GET" then Get
    else if s == "POST" then Post
    else if s == "PUT" then Put
    else if s == "DELETE" then Delete
    else if s == "HEAD" then Head
    else if s == "TRACE" then Trace
    else if s == "CONNECT" then Connect
    else if s == "PATCH" then Patch
    else Extension(s)
  }

  // --------------------------------------------------------------- versions

  /** A protocol version. The crate's type is closed over the five known versions;
      `Unrecognized` stands for any other value, carrying its `Debug` rendering. */
  datatype Version = Http09 | Http10 | Http11 | Http2 | Http3 | Unrecognized(debug: string)

  predicate IsKnownVersion(v: Version)
  {
    !v.Unrecognized?
  }

  /** The `Debug` rendering of a version always has the form "HTTP/...". */
  predicate ValidVersion(v: Version)
  {
    v.Unrecognized? ==> |v.debug| >= 5 && v.debug[..5] == "HTTP/"
  }

  // ------------------------------------------------------------------- URIs

  /** The path-and-query component of a URI: the path and the text after '?', if any. */
  datatype PathAndQuery = PathAndQuery(path: string, query: Option<string>)

  /** A request target. `authority` is `None` when the crate's authority is empty. */
  datatype Uri = Uri(scheme: Option<string>, authority: Option<string>, pathAndQuery: PathAndQuery)

  /** What the crate's parser guarantees: a scheme only with an authority, a non-empty
      authority, and a path that does not contain the query separator. */
  predicate ValidUri(u: Uri)
  {
    && (u.scheme.Some? ==> u.authority.Some?)
    && (u.authority.Some? ==> u.authority.value != "")
    && '?' !in u.pathAndQuery.path
  }

  function QuerySuffix(q: Option<string>): string
  {
    match q
    case None => ""
    case Some(s) => "?" + s
  }

  /** The raw text the crate stores for a path-and-query component. */
  function PathAndQueryData(pq: PathAndQuery): string
  {
    pq.path + QuerySuffix(pq.query)
  }

  /** `PathAndQuery::as_str`: the stored text, or "/" when it is empty. */
  function PathAndQueryText(pq: PathAndQuery): string
  {
    var data := PathAndQueryData(pq);
    if data == "" then "/" else data
  }

  /** `Uri::path`: the path, "/" for an empty path of a URI that has one, and "" for a URI
      without a path (the authority form used by CONNECT). */
  function UriPath(u: Uri): string
  {
    if PathAndQueryData(u.pathAndQuery) != "" || u.scheme.Some? then
      (if u.pathAndQuery.path == "" then "/" else u.pathAndQuery.path)
    else ""
  }

  /** `Uri::path_and_query`: absent exactly for the authority form. */
  function UriPathAndQuery(u: Uri): Option<PathAndQuery>
  {
    if u.scheme.Some? || u.authority.None? then Some(u.pathAndQuery) else None
  }

  /** The `Display` rendering of a URI: scheme, authority, path and query. */
  function UriText(u: Uri): string
  {
    (match u.scheme case Some(s) => s + "://" case None => "")
    + (match u.authority case Some(a) => a case None => "")
    + UriPath(u)
    + QuerySuffix(u.pathAndQuery.query)
  }

  // ----------------------------------------------------------- status codes

  /** The crate's status codes are the three-digit numbers. */
  type StatusCode = c: int | 100 <= c <= 999 witness 200

  /** `StatusCode::is_server_error`: the 5xx class (section 15.6 of RFC 9110). */
  predicate IsServerError(c: StatusCode)
  {
    500 <= c <= 599
  }

  /** `StatusCode::canonical_reason` on the server-error class, the only class on which the
      middleware asks for it. */
  function ServerErrorReason(c: StatusCode): Option<string>
    requires IsServerError(c)
  {
    match c
    case 500 => Some("Internal Server Error")
    case 501 => Some("Not Implemented")
    case 502 => Some("Bad Gateway")
    case 503 => Some("Service Unavailable")
    case 504 => Some("Gateway Timeout")
    case 505 => Some("HTTP Version Not Supported")
    case 506 => Some("Variant Also Negotiates")
    case 507 => Some("Insufficient Storage")
    case 508 => Some("Loop Detected")
    case 510 => Some("Not Extended")
    case 511 => Some("Network Authentication Required")
    case _ => None
  }
}
