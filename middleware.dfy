/** The tower middleware: for each request it extracts the caller's trace context, starts
    a server span named after the request path with the HTTP attributes of the request,
    and when the wrapped service completes it records the outcome on the span, lets the
    propagator write the ambient context into the response headers and ends the span. */
module Middleware {
  import opened Http
  import opened Headers
  import opened Otel

  // ------------------------------------------------------------ value maps

  /** The text recorded as `http.method`: a fixed literal for the nine standard methods,
      the method's own text for an extension method. */
  function HttpMethodStr(m: Method): (r: string)
    ensures r == MethodText(m)
    ensures ValidMethod(m) ==> ParseMethod(r) == m
  {
    match m
    case Options => "OPTIONS"
    case Get => "GET"
    case Post => "POST"
    case Put => "PUT"
    case Delete => "DELETE"
    case Head => "HEAD"
    case Trace => "TRACE"
    case Connect => "CONNECT"
    case Patch => "PATCH"
    case Extension(_) => MethodText(m)
  }

  /** Reading back an `http.flavor` value. */
  function ParseFlavor(s: string): Option<Version>
  {
    if s == "0.9" then Some(Http09)
    else if s == "1.0" then Some(Http10)
    else if s == "1.1" then Some(Http11)
    else if s == "2.0" then Some(Http2)
    else if s == "3.0" then Some(Http3)
    else None
  }

  /** The text recorded as `http.flavor`: the dotted version number for the five known
      versions, the `Debug` rendering for any other. */
  function HttpFlavor(v: Version): (r: string)
    ensures IsKnownVersion(v) ==> ParseFlavor(r) == Some(v)
    ensures ValidVersion(v) && !IsKnownVersion(v) ==> ParseFlavor(r) == None && r == v.debug
  {
    match v
    case Http09 => "0.9"
    case Http10 => "1.0"
    case Http11 => "1.1"
    case Http2 => "2.0"
    case Http3 => "3.0"
    case Unrecognized(debug) => debug
  }

  /** Distinct methods are recorded as distinct `http.method` values. */
  lemma MethodStrInjective(m1: Method, m2: Method)
    requires ValidMethod(m1) && ValidMethod(m2)
    ensures HttpMethodStr(m1) == HttpMethodStr(m2) <==> m1 == m2
  {
  }

  /** Distinct versions are recorded as distinct `http.flavor` values. */
  lemma FlavorInjective(v1: Version, v2: Version)
    requires ValidVersion(v1) && ValidVersion(v2)
    ensures HttpFlavor(v1) == HttpFlavor(v2) <==> v1 == v2
  {
  }

  // ------------------------------------------------------- request, outcome

  /** The parts of an incoming request the middleware reads; the body is opaque. */
  datatype Request = Request(verb: Method, version: Version, uri: Uri, headers: HeaderMap)

  /** An error of the wrapped service: its `Debug` and `Display` renderings and the
      backtrace it carries, if any. */
  datatype ServiceError = ServiceError(debug: string, message: string, backtrace: Option<string>)

  /** The parts of a response the middleware touches; the body is opaque. */
  class Response {
    const status: StatusCode
    const headers: HeaderMap

    constructor (status: StatusCode, headers: HeaderMap)
      ensures this.status == status && this.headers == headers
    {
      this.status, this.headers := status, headers;
    }
  }

  /** One header the propagator writes when it injects a context. */
  datatype Field = Field(key: string, value: string)

  predicate ValidFields(fields: seq<Field>)
  {
    forall i :: 0 <= i < |fields| ==> ValidName(fields[i].key) && ValidValue(fields[i].value)
  }

  // ------------------------------------------------------- span attributes

  function StrOf(o: Option<string>): Option<Value>
  {
    match o
    case None => None
    case Some(s) => Some(Str(s))
  }

  /** The standard `user-agent` header name, already in the crate's lower-case form. */
  const USER_AGENT: string := "user-agent"

  /** The request's user agent as text, if the header is present and visible ASCII. The
      key is a ready-made header name, so the lookup is direct. */
  function UserAgent(entries: Entries): Option<string>
  {
    if USER_AGENT in entries then ToStr(entries[USER_AGENT]) else None
  }

  /** The `http.target` value: the path and query, when the URI has them. */
  function Target(u: Uri): Option<string>
  {
    match UriPathAndQuery(u)
    case None => None
    case Some(pq) => Some(PathAndQueryText(pq))
  }

  /** Where each request attribute's value comes from: three texts that are always
      there, and three that may be absent. */
  datatype Sources = Sources(
    verb: string, flavor: string, url: string,
    host: Option<string>, target: Option<string>, agent: Option<string>)

  /** The attribute sources of a request, given its header entries and the host name. */
  function SourcesOf(req: Request, entries: Entries, hostName: Option<string>): Sources
  {
    Sources(HttpMethodStr(req.verb), HttpFlavor(req.version), UriText(req.uri),
            hostName, Target(req.uri), UserAgent(entries))
  }

  function KeyIf(present: bool, key: string): seq<string>
  {
    if present then [key] else []
  }

  /** The attributes a request's span is built with: the three mandatory keys first and in
      this order, then each optional key exactly when its source is present, in this
      order; each key carrying the value of its source. */
  ghost predicate Describes(attributes: seq<KeyValue>, src: Sources)
  {
    && KeysOf(attributes) ==
         [HTTP_METHOD, HTTP_FLAVOR, HTTP_URL]
         + KeyIf(src.host.Some?, NET_HOST_NAME)
         + KeyIf(src.target.Some?, HTTP_TARGET)
         + KeyIf(src.agent.Some?, HTTP_USER_AGENT)
    && Lookup(attributes, HTTP_METHOD) == Some(Str(src.verb))
    && Lookup(attributes, HTTP_FLAVOR) == Some(Str(src.flavor))
    && Lookup(attributes, HTTP_URL) == Some(Str(src.url))
    && Lookup(attributes, NET_HOST_NAME) == StrOf(src.host)
    && Lookup(attributes, HTTP_TARGET) == StrOf(src.target)
    && Lookup(attributes, HTTP_USER_AGENT) == StrOf(src.agent)
  }

  predicate NoDuplicates(keys: seq<string>)
  {
    forall i, j :: 0 <= i < j < |keys| ==> keys[i] != keys[j]
  }

  /** An optional attribute: one entry when its source is present, none otherwise. */
  function OptionalAttribute(key: string, source: Option<string>): seq<KeyValue>
  {
    match source
    case None => []
    case Some(s) => [KeyValue(key, Str(s))]
  }

  function Mandatory(src: Sources): seq<KeyValue>
  {
    [KeyValue(HTTP_METHOD, Str(src.verb)), KeyValue(HTTP_FLAVOR, Str(src.flavor)), KeyValue(HTTP_URL, Str(src.url))]
  }

  /** The mandatory attributes followed by the three optional ones, in order. */
  function Assembled(src: Sources): seq<KeyValue>
  {
    Mandatory(src)
    + OptionalAttribute(NET_HOST_NAME, src.host)
    + OptionalAttribute(HTTP_TARGET, src.target)
    + OptionalAttribute(HTTP_USER_AGENT, src.agent)
  }

  /** Lookup in a concatenation: the later part wins. */
  lemma {:induction false} LookupConcat(a: seq<KeyValue>, b: seq<KeyValue>, key: string)
    ensures Lookup(a + b, key) == if Lookup(b, key).Some? then Lookup(b, key) else Lookup(a, key)
  {
    if b != [] {
      var n := |b| - 1;
      assert (a + b)[..|a + b| - 1] == a + b[..n];
      LookupConcat(a, b[..n], key);
    } else {
      assert a + b == a;
    }
  }

  /** An optional attribute reads as its source under its own key, and as nothing under
      any other key. */
  lemma OptionalLookup(k: string, source: Option<string>, key: string)
    ensures Lookup(OptionalAttribute(k, source), key) == if key == k then StrOf(source) else None
  {
  }

  /** Looking a key up in the assembled list: an optional attribute under its own key,
      and the mandatory part under any other key. */
  lemma AssembledLookup(src: Sources, key: string)
    ensures Lookup(Assembled(src), key) ==
      if key == HTTP_USER_AGENT && src.agent.Some? then StrOf(src.agent)
      else if key == HTTP_TARGET && src.target.Some? then StrOf(src.target)
      else if key == NET_HOST_NAME && src.host.Some? then StrOf(src.host)
      else Lookup(Mandatory(src), key)
  {
    var m := Mandatory(src);
    var host := OptionalAttribute(NET_HOST_NAME, src.host);
    var target := OptionalAttribute(HTTP_TARGET, src.target);
    var agent := OptionalAttribute(HTTP_USER_AGENT, src.agent);
    LookupConcat(m + host + target, agent, key);
    LookupConcat(m + host, target, key);
    LookupConcat(m, host, key);
    OptionalLookup(NET_HOST_NAME, src.host, key);
    OptionalLookup(HTTP_TARGET, src.target, key);
    OptionalLookup(HTTP_USER_AGENT, src.agent, key);
  }

  /** The keys of the assembled list: the mandatory ones, then each optional key whose
      source is present. */
  lemma AssembledKeys(src: Sources)
    ensures KeysOf(Assembled(src)) ==
      [HTTP_METHOD, HTTP_FLAVOR, HTTP_URL]
      + KeyIf(src.host.Some?, NET_HOST_NAME)
      + KeyIf(src.target.Some?, HTTP_TARGET)
      + KeyIf(src.agent.Some?, HTTP_USER_AGENT)
  {
    var m := Mandatory(src);
    var host := OptionalAttribute(NET_HOST_NAME, src.host);
    var target := OptionalAttribute(HTTP_TARGET, src.target);
    var agent := OptionalAttribute(HTTP_USER_AGENT, src.agent);
    KeysOfConcat(m + host + target, agent);
    KeysOfConcat(m + host, target);
    KeysOfConcat(m, host);
    assert KeysOf(m) == [HTTP_METHOD, HTTP_FLAVOR, HTTP_URL];
    assert KeysOf(host) == KeyIf(src.host.Some?, NET_HOST_NAME);
    assert KeysOf(target) == KeyIf(src.target.Some?, HTTP_TARGET);
    assert KeysOf(agent) == KeyIf(src.agent.Some?, HTTP_USER_AGENT);
  }

  /** The six request attribute keys are pairwise distinct. */
  lemma RequestKeysDistinct()
    ensures HTTP_METHOD != HTTP_FLAVOR && HTTP_METHOD != HTTP_URL && HTTP_FLAVOR != HTTP_URL
    ensures NET_HOST_NAME != HTTP_METHOD && NET_HOST_NAME != HTTP_FLAVOR && NET_HOST_NAME != HTTP_URL
    ensures HTTP_TARGET != HTTP_METHOD && HTTP_TARGET != HTTP_FLAVOR && HTTP_TARGET != HTTP_URL
    ensures HTTP_TARGET != NET_HOST_NAME
    ensures HTTP_USER_AGENT != HTTP_METHOD && HTTP_USER_AGENT != HTTP_FLAVOR && HTTP_USER_AGENT != HTTP_URL
    ensures HTTP_USER_AGENT != NET_HOST_NAME && HTTP_USER_AGENT != HTTP_TARGET
  {
  }

  /** Appending a key not yet present keeps a key list free of duplicates. */
  lemma AppendFreshKey(keys: seq<string>, present: bool, key: string)
    requires NoDuplicates(keys) && key !in keys
    ensures NoDuplicates(keys + KeyIf(present, key))
  {
  }

  /** Six distinct keys, the last three each kept or dropped, make a list without
      duplicates. */
  lemma DistinctKeyList(k1: string, k2: string, k3: string, k4: string, k5: string, k6: string,
                        p4: bool, p5: bool, p6: bool)
    requires k1 != k2 && k1 != k3 && k2 != k3
    requires k4 != k1 && k4 != k2 && k4 != k3
    requires k5 != k1 && k5 != k2 && k5 != k3 && k5 != k4
    requires k6 != k1 && k6 != k2 && k6 != k3 && k6 != k4 && k6 != k5
    ensures NoDuplicates([k1, k2, k3] + KeyIf(p4, k4) + KeyIf(p5, k5) + KeyIf(p6, k6))
  {
    var l0 := [k1, k2, k3];
    var l1 := l0 + KeyIf(p4, k4);
    var l2 := l1 + KeyIf(p5, k5);
    AppendFreshKey(l0, p4, k4);
    assert forall k :: k in l1 ==> k == k1 || k == k2 || k == k3 || k == k4;
    AppendFreshKey(l1, p5, k5);
    assert forall k :: k in l2 ==> k == k1 || k == k2 || k == k3 || k == k4 || k == k5;
    AppendFreshKey(l2, p6, k6);
  }

  /** The assembled list never repeats a key. */
  lemma AssembledDistinct(src: Sources)
    ensures NoDuplicates(KeysOf(Assembled(src)))
  {
    AssembledKeys(src);
    RequestKeysDistinct();
    DistinctKeyList(HTTP_METHOD, HTTP_FLAVOR, HTTP_URL, NET_HOST_NAME, HTTP_TARGET, HTTP_USER_AGENT,
                    src.host.Some?, src.target.Some?, src.agent.Some?);
  }

  /** The three mandatory attributes read as their sources. */
  lemma MandatoryLookup(src: Sources)
    ensures Lookup(Mandatory(src), HTTP_METHOD) == Some(Str(src.verb))
    ensures Lookup(Mandatory(src), HTTP_FLAVOR) == Some(Str(src.flavor))
    ensures Lookup(Mandatory(src), HTTP_URL) == Some(Str(src.url))
    ensures Lookup(Mandatory(src), NET_HOST_NAME) == None
    ensures Lookup(Mandatory(src), HTTP_TARGET) == None
    ensures Lookup(Mandatory(src), HTTP_USER_AGENT) == None
  {
    var m := Mandatory(src);
    RequestKeysDistinct();
    assert KeysOf(m) == [HTTP_METHOD, HTTP_FLAVOR, HTTP_URL];
    LookupDistinct(m, 0);
    LookupDistinct(m, 1);
    LookupDistinct(m, 2);
    LookupMeaning(m, NET_HOST_NAME);
    LookupMeaning(m, HTTP_TARGET);
    LookupMeaning(m, HTTP_USER_AGENT);
  }

  /** Every attribute of the assembled list reads as its source. */
  lemma AssembledValues(src: Sources)
    ensures Lookup(Assembled(src), HTTP_METHOD) == Some(Str(src.verb))
    ensures Lookup(Assembled(src), HTTP_FLAVOR) == Some(Str(src.flavor))
    ensures Lookup(Assembled(src), HTTP_URL) == Some(Str(src.url))
    ensures Lookup(Assembled(src), NET_HOST_NAME) == StrOf(src.host)
    ensures Lookup(Assembled(src), HTTP_TARGET) == StrOf(src.target)
    ensures Lookup(Assembled(src), HTTP_USER_AGENT) == StrOf(src.agent)
  {
    var a := Assembled(src);
    MandatoryLookup(src);
    assert Lookup(a, HTTP_METHOD) == Some(Str(src.verb)) by {
      RequestKeysDistinct();
      AssembledLookup(src, HTTP_METHOD);
    }
    assert Lookup(a, HTTP_FLAVOR) == Some(Str(src.flavor)) by {
      RequestKeysDistinct();
      AssembledLookup(src, HTTP_FLAVOR);
    }
    assert Lookup(a, HTTP_URL) == Some(Str(src.url)) by {
      RequestKeysDistinct();
      AssembledLookup(src, HTTP_URL);
    }
    assert Lookup(a, NET_HOST_NAME) == StrOf(src.host) by {
      RequestKeysDistinct();
      AssembledLookup(src, NET_HOST_NAME);
    }
    assert Lookup(a, HTTP_TARGET) == StrOf(src.target) by {
      RequestKeysDistinct();
      AssembledLookup(src, HTTP_TARGET);
    }
    assert Lookup(a, HTTP_USER_AGENT) == StrOf(src.agent) by {
      RequestKeysDistinct();
      AssembledLookup(src, HTTP_USER_AGENT);
    }
  }

  /** The assembled list describes its sources, has between three and six entries, and
      never repeats a key. */
  lemma AssembledDescribes(src: Sources)
    ensures Describes(Assembled(src), src)
    ensures 3 <= |Assembled(src)| <= 6
    ensures NoDuplicates(KeysOf(Assembled(src)))
  {
    AssembledKeys(src);
    AssembledDistinct(src);
    AssembledValues(src);
  }

  /** Builds the attribute list of a request's span by successive pushes: the method, the
      protocol version and the URL, then the host name, the path and query, and the user
      agent, each only when present. */
  method BuildAttributes(req: Request, hostName: Option<string>) returns (attributes: seq<KeyValue>)
    ensures Describes(attributes, SourcesOf(req, req.headers.entries, hostName))
    ensures 3 <= |attributes| <= 6
    ensures NoDuplicates(KeysOf(attributes))
  {
    ghost var src := SourcesOf(req, req.headers.entries, hostName);
    attributes := [];
    attributes := attributes + [KeyValue(HTTP_METHOD, Str(HttpMethodStr(req.verb)))];
    attributes := attributes + [KeyValue(HTTP_FLAVOR, Str(HttpFlavor(req.version)))];
    attributes := attributes + [KeyValue(HTTP_URL, Str(UriText(req.uri)))];
    if hostName.Some? {
      attributes := attributes + [KeyValue(NET_HOST_NAME, Str(hostName.value))];
    }
    assert attributes == Mandatory(src) + OptionalAttribute(NET_HOST_NAME, src.host);
    ghost var withHost := attributes;
    var pathAndQuery := UriPathAndQuery(req.uri);
    assert src.target == if pathAndQuery.Some? then Some(PathAndQueryText(pathAndQuery.value)) else None;
    if pathAndQuery.Some? {
      attributes := attributes + [KeyValue(HTTP_TARGET, Str(PathAndQueryText(pathAndQuery.value)))];
    }
    assert attributes == withHost + OptionalAttribute(HTTP_TARGET, src.target);
    ghost var withTarget := attributes;
    var userAgent := UserAgent(req.headers.entries);
    if userAgent.Some? {
      attributes := attributes + [KeyValue(HTTP_USER_AGENT, Str(userAgent.value))];
    }
    assert attributes == withTarget + OptionalAttribute(HTTP_USER_AGENT, src.agent);
    AssembledDescribes(src);
  }

  // ------------------------------------------------------------- span name

  /** The span name is the path alone: it never holds the query. */
  lemma SpanNameHasNoQuery(u: Uri)
    requires ValidUri(u)
    ensures '?' !in UriPath(u)
  {
  }

  /** Requests that differ only in their query get the same span name. */
  lemma SpanNameIgnoresQuery(u: Uri, q: Option<string>)
    requires u.pathAndQuery.path != "" || u.scheme.Some?
    ensures UriPath(u.(pathAndQuery := u.pathAndQuery.(query := q))) == UriPath(u)
  {
  }

  /** For a request in origin form ("/orders?id=7") the `http.url` and `http.target`
      attributes carry the same text. */
  lemma OriginFormUrlIsTarget(u: Uri)
    requires u.scheme.None? && u.authority.None? && u.pathAndQuery.path != ""
    ensures Target(u) == Some(UriText(u))
  {
    var pq := u.pathAndQuery;
    var data := PathAndQueryData(pq);
    assert data != "" by { assert |data| >= |pq.path|; }
    assert UriPath(u) == pq.path;
    assert UriText(u) == pq.path + QuerySuffix(pq.query);
  }

  // ------------------------------------------------------------- injection

  /** The header entries after the propagator's fields have been written in order, each
      through `HeaderCarrier.Set`. */
  function Injected(entries: Entries, fields: seq<Field>): Entries
  {
    if fields == [] then entries
    else
      var last := fields[|fields| - 1];
      Injected(entries, fields[..|fields| - 1])[Normalize(last.key) := EncodeText(last.value)]
  }

  /** The value the fields write last under the (lower-case) header `name`, if any. */
  function LastWritten(fields: seq<Field>, name: string): (r: Option<string>)
    ensures r.None? <==> forall i :: 0 <= i < |fields| ==> Normalize(fields[i].key) != name
  {
    if fields == [] then None
    else if Normalize(fields[|fields| - 1].key) == name then Some(fields[|fields| - 1].value)
    else LastWritten(fields[..|fields| - 1], name)
  }

  /** After injection a header holds the value the fields wrote last under its name, and a
      header the fields do not name is exactly as before: present or absent, same value. */
  lemma {:induction false} InjectedMeaning(entries: Entries, fields: seq<Field>, name: string)
    ensures name in Injected(entries, fields) <==> name in entries || LastWritten(fields, name).Some?
    ensures name in Injected(entries, fields) ==>
      Injected(entries, fields)[name] ==
        match LastWritten(fields, name)
        case Some(v) => EncodeText(v)
        case None => entries[name]
  {
    if fields != [] {
      InjectedMeaning(entries, fields[..|fields| - 1], name);
    }
  }

  /** Injection adds or overwrites only the headers the propagator names, and keeps the
      header map's names in lower case. */
  lemma {:induction false} InjectedValid(entries: Entries, fields: seq<Field>)
    requires forall k :: k in entries ==> IsNormalName(k)
    requires ValidFields(fields)
    ensures forall k :: k in Injected(entries, fields) ==> IsNormalName(k)
    ensures entries.Keys <= Injected(entries, fields).Keys
  {
    if fields != [] {
      var n := |fields| - 1;
      InjectedValid(entries, fields[..n]);
      NormalizeIsNormal(fields[n].key);
    }
  }

  /** What a downstream extractor reads from the injected response: under a name the
      propagator wrote, the text it wrote last (given back when it is visible ASCII); under
      any other name, what the response already carried. */
  lemma InjectedThenGet(entries: Entries, fields: seq<Field>, key: string)
    requires ValidName(key)
    ensures ValueOf(Injected(entries, fields), key) ==
      match LastWritten(fields, Normalize(key))
      case Some(v) => Some(EncodeText(v))
      case None => ValueOf(entries, key)
    ensures LastWritten(fields, Normalize(key)).Some? ==>
      var v := LastWritten(fields, Normalize(key)).value;
      ToStr(EncodeText(v)) == if IsVisibleText(v) then Some(v) else None
  {
    InjectedMeaning(entries, fields, Normalize(key));
    if LastWritten(fields, Normalize(key)).Some? {
      ToStrEncodeText(LastWritten(fields, Normalize(key)).value);
    }
  }

  // ------------------------------------------------------------ completion

  /** The status description for a server error: the canonical reason phrase, or the
      empty text for a code that has none. */
  function ServerErrorDescription(c: StatusCode): string
    requires IsServerError(c)
  {
    match ServerErrorReason(c)
    case Some(reason) => reason
    case None => ""
  }

  /** A server error is described by a non-empty reason phrase exactly for the codes the
      crate names; 509 and 512 to 599 get an empty description. */
  lemma ServerErrorDescriptionEmpty(c: StatusCode)
    requires IsServerError(c)
    ensures ServerErrorDescription(c) == "" <==> c == 509 || c >= 512
  {
  }

  /** The status code is recorded under a key the request's attributes never use, so
      it reads back as the response's code and every request attribute reads as before. */
  lemma StatusCodeRecorded(attributes: seq<KeyValue>, src: Sources, code: StatusCode)
    requires Describes(attributes, src)
    ensures Lookup(attributes, HTTP_STATUS_CODE).None?
    ensures var after := attributes + [KeyValue(HTTP_STATUS_CODE, I64(code))];
      && Lookup(after, HTTP_STATUS_CODE) == Some(I64(code))
      && forall k :: k != HTTP_STATUS_CODE ==> Lookup(after, k) == Lookup(attributes, k)
  {
    var keys := KeysOf(attributes);
    forall i | 0 <= i < |attributes| ensures attributes[i].key != HTTP_STATUS_CODE {
      assert keys[i] in keys;
    }
    LookupMeaning(attributes, HTTP_STATUS_CODE);
    var after := attributes + [KeyValue(HTTP_STATUS_CODE, I64(code))];
    assert after[..|after| - 1] == attributes;
  }

  /** The exception event recorded for a failure of the wrapped service: its message, and
      its backtrace rendered as a stack trace when it carries one. */
  function ExceptionEvent(e: ServiceError): Event
  {
    Exception(e.message, e.backtrace)
  }

  /** The completion handler the middleware attaches to the wrapped service's result. On
      success it lets the propagator write its fields into the response headers, records the status
      code, marks the span as failed for a 5xx status, ends the span and hands the response
      back. On failure it marks the span as failed with the error's debug text, records an
      exception event, ends the span and hands the error back unchanged. The wrapped service
      may already have ended the span; the span then ignores every update but the end. */
  method Complete(span: Span, res: Result<Response, ServiceError>, injected: seq<Field>)
    returns (out: Result<Response, ServiceError>)
    requires span.Valid()
    requires res.Ok? ==> res.value.headers.Valid() && ValidFields(injected)
    modifies {span} + (if res.Ok? then {res.value.headers} else {})
    ensures out == res
    ensures span.Valid() && span.ended && span.endCalls == old(span.endCalls) + 1
    ensures res.Ok? ==>
      var resp := res.value;
      && resp.headers.Valid()
      && resp.headers.entries == Injected(old(resp.headers.entries), injected)
      && span.attributes == (if old(span.ended) then old(span.attributes)
                             else old(span.attributes) + [KeyValue(HTTP_STATUS_CODE, I64(resp.status))])
      && span.status == (if !old(span.ended) && IsServerError(resp.status)
                         then StatusError(ServerErrorDescription(resp.status)) else old(span.status))
      && span.events == old(span.events)
    ensures res.Err? ==>
      && span.attributes == old(span.attributes)
      && span.status == (if old(span.ended) then old(span.status) else StatusError(res.error.debug))
      && span.events == (if old(span.ended) then old(span.events)
                         else old(span.events) + [ExceptionEvent(res.error)])
  {
    match res
    case Ok(resp) =>
      var carrier := new HeaderCarrier(resp.headers);
      ghost var before := resp.headers.entries;
      for i := 0 to |injected|
        modifies resp.headers
        invariant resp.headers.Valid()
        invariant resp.headers.entries == Injected(before, injected[..i])
      {
        carrier.Set(injected[i].key, injected[i].value);
        assert injected[..i + 1][..i] == injected[..i];
      }
      assert injected[..|injected|] == injected;
      span.SetAttribute(KeyValue(HTTP_STATUS_CODE, I64(resp.status)));
      if IsServerError(resp.status) {
        span.SetStatus(StatusError(ServerErrorDescription(resp.status)));
      }
      span.End();
      out := Ok(resp);
    case Err(error) =>
      span.SetStatus(StatusError(error.debug));
      if error.backtrace.Some? {
        span.RecordException(Exception(error.message, Some(error.backtrace.value)));
      } else {
        span.RecordException(Exception(error.message, None));
      }
      span.End();
      out := Err(error);
  }

  // --------------------------------------------------------------- request

  /** One request through the middleware. The propagator's extraction is the function
      `extract` over the request's header entries; the host name, the wrapped service's
      result and the fields the propagator writes into the response are given. Those fields
      are whatever the propagator derives from the context that is current when the
      completion handler runs, which need not be the new span's. */
  method Call(req: Request, hostName: Option<string>, extract: Entries -> Context,
              downstream: Result<Response, ServiceError>, injected: seq<Field>)
    returns (span: Span, out: Result<Response, ServiceError>)
    requires downstream.Ok? ==> downstream.value.headers.Valid() && ValidFields(injected)
    modifies if downstream.Ok? then {downstream.value.headers} else {}
    ensures fresh(span) && span.Valid()
    ensures span.ended && span.endCalls == 1
    ensures span.name == UriPath(req.uri) && span.kind == Server
    ensures span.parent == extract(old(req.headers.entries))
    ensures out == downstream
    ensures var n := if downstream.Ok? then |span.attributes| - 1 else |span.attributes|;
      && 0 <= n
      && Describes(span.attributes[..n], SourcesOf(req, old(req.headers.entries), hostName))
      && (downstream.Ok? ==> span.attributes[n] == KeyValue(HTTP_STATUS_CODE, I64(downstream.value.status)))
    ensures downstream.Ok? ==>
      && downstream.value.headers.entries == Injected(old(downstream.value.headers.entries), injected)
      && span.status == (if IsServerError(downstream.value.status)
                         then StatusError(ServerErrorDescription(downstream.value.status)) else Unset)
      && span.events == []
    ensures downstream.Err? ==>
      && span.status == StatusError(downstream.error.debug)
      && span.events == [ExceptionEvent(downstream.error)]
  {
    ghost var src := SourcesOf(req, req.headers.entries, hostName);
    var carrier := new HeaderCarrier(req.headers);
    var parent := extract(carrier.headers.entries);
    var attributes := BuildAttributes(req, hostName);
    assert Describes(attributes, src);
    span := new Span.Start(UriPath(req.uri), Server, parent, attributes);
    out := Complete(span, downstream, injected);
    if downstream.Ok? {
      assert span.attributes[..|span.attributes| - 1] == attributes;
    } else {
      assert span.attributes[..|span.attributes|] == attributes;
    }
  }
}
