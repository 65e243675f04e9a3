# tower-opentelemetry, modelled in Dafny

`tower-opentelemetry` is a tower middleware that wraps every HTTP request a service
handles in an OpenTelemetry server span. For each request it does four things:

- It extracts the caller's trace context from the request headers.
- It starts a span named after the request path. The span carries the request's method,
  protocol version, URL, host name, target and user agent as attributes.
- When the wrapped service completes, it records the outcome on the span. A success
  records the status code, and a 5xx status marks the span as failed. A failure records
  the error as the span's status and as an exception event.
- It lets the propagator write its fields into the response headers, and ends the span.
  The propagator writes from whatever context is current when the completion handler
  runs; the model takes those fields as given.

The model has four modules:

- `Http` holds the vocabulary of the `http` crate that the middleware reads: methods,
  versions, URIs and status codes, with the results of the accessors it calls.
- `Headers` holds header maps, and the `HeaderCarrier` through which the propagator reads
  and writes them. A header value is stored as bytes: a `String` is written as its UTF-8
  encoding, and read back only when every byte is tab or visible ASCII.
- `Otel` holds attribute values, span status, exception events and the `Span` class. Once
  ended, a span ignores every further update, as the SDK's spans do. A ghost counter
  records how many times `End` was called.
- `Middleware` holds `http_method_str`, `http_flavor`, the attribute assembly, the
  completion handler and one request's full path through the middleware.

External inputs are parameters:

- the machine's host name;
- the propagator's extraction, a function over the request headers;
- the header fields the propagator injects;
- the wrapped service's result.

## Model

| member | source | states |
|---|---|---|
| Middleware.HttpMethodStr | src/lib.rs:28-41 | The recorded method text is the standard name for the nine standard methods and the method's own text otherwise. Parsing it back gives the same method. |
| Middleware.MethodStrInjective | src/lib.rs:28-41 | Two valid methods are recorded as the same text exactly when they are the same method. |
| Middleware.HttpFlavor | src/lib.rs:44-53 | A known version is recorded as "0.9", "1.0", "1.1", "2.0" or "3.0", and parsing that text gives the version back. Any other version is recorded as its debug text, which parses as no known version. |
| Middleware.FlavorInjective | src/lib.rs:44-53 | Two valid versions are recorded as the same text exactly when they are the same version. |
| Middleware.BuildAttributes | src/lib.rs:127-146 | The pushed list has the keys method, flavor and url in that order, then host name, target and user agent, each only when its source is present. Every key reads as its source, the list has 3 to 6 entries, and no key repeats. |
| Middleware.AssembledDescribes | src/lib.rs:127-145 | The push sequence written as a concatenation describes its sources, has 3 to 6 entries and repeats no key. |
| Middleware.AssembledKeys | src/lib.rs:127-145 | The key order of the assembled list: the three mandatory keys, then each optional key whose source is present. |
| Middleware.AssembledValues | src/lib.rs:128-145 | Each of the six keys reads as its source. An absent optional source reads as no attribute, never as a placeholder. |
| Middleware.MandatoryLookup | src/lib.rs:128-130 | The three mandatory attributes read as the method text, the flavor text and the URL text. The optional keys are absent from them. |
| Middleware.AssembledLookup | src/lib.rs:132-145 | Under an optional key whose source is present, the assembled list reads as that source. Under any other key it reads as its mandatory part. |
| Middleware.AssembledDistinct | src/lib.rs:127-145 | The assembled list never repeats a key. |
| Middleware.LookupConcat | src/lib.rs:146 | In a concatenated attribute list, a key the later part sets reads as the later part's value, and otherwise as the earlier part's value. |
| Middleware.SpanNameHasNoQuery | src/lib.rs:124 | The span name, the URI path, never contains the query separator. |
| Middleware.SpanNameIgnoresQuery | src/lib.rs:124 | Requests that differ only in their query get the same span name, for a non-empty path and for any absolute-form URI, whose empty path is named "/". |
| Middleware.OriginFormUrlIsTarget | src/lib.rs:130-137 | For an origin-form request, `http.url` and `http.target` carry the same text. |
| Middleware.LastWritten | src/lib.rs:214-219 | The fields write nothing under a name exactly when none of their keys, lower-cased, is that name. |
| Middleware.InjectedMeaning | src/lib.rs:157-159 | After injection, a header holds the value the fields wrote last under its name. A header the fields do not name is as before, present or absent. |
| Middleware.InjectedValid | src/lib.rs:157-159 | Injection keeps every header name lower-case and never removes a header. |
| Middleware.InjectedThenGet | src/lib.rs:157-159 | A downstream extractor reads back the injected text under an injected name, when that text is visible ASCII. Under other names it reads what the response already had. |
| Middleware.StatusCodeRecorded | src/lib.rs:161 | `http.status_code` is a key no request attribute uses. After it is recorded it reads as the response's code, and every request attribute reads as before. |
| Middleware.ServerErrorDescriptionEmpty | src/lib.rs:162-170 | A 5xx status gets an empty description exactly for 509 and for 512 to 599, the codes without a canonical reason. |
| Middleware.Complete | src/lib.rs:155-186 | On success: the injected headers are written, the status code is appended, and the status becomes Error with the canonical reason (or "") only for a 5xx code. Events are unchanged, and the response is handed back. On failure: the status becomes Error with the error's debug text, an exception event is recorded, and the error is handed back unchanged. Both paths end the span exactly once. If the span was already ended, only the end is counted and nothing else changes. |
| Middleware.Call | src/lib.rs:116-190 | A fresh span with kind Server, named by the URI path, with the extracted parent. Its attributes describe the request, followed by the status code on success. Its status and events are as `Complete` sets them, it is ended exactly once, and the service's result is returned unchanged. |
| Headers.Normalize | src/lib.rs:216 | A header name is stored lower-cased, character by character, with its length kept. |
| Headers.NormalizeIsNormal | src/lib.rs:216 | A lower-cased valid name is a valid lower-case name. |
| Headers.ToStrMeaning | src/lib.rs:205 | `to_str` succeeds exactly when every byte is tab or visible ASCII. The resulting text is those bytes. |
| Headers.EncodeValidValue | src/lib.rs:217 | Every byte of an accepted value's encoding is a byte a header value may hold. |
| Headers.ToStrEncodeText | src/lib.rs:205-217 | Reading back a written value gives it back exactly when it is visible ASCII, and gives nothing otherwise. |
| Headers.AsciiRoundTrip | src/lib.rs:205 | Visible-ASCII bytes are the encoding of the text they spell. |
| Headers.HeaderCarrier.Get | src/lib.rs:204-206 | A value is returned exactly when the key is a valid name, a value is stored under its lower-cased form, and that value is all visible ASCII. The returned text encodes to the stored bytes. Nothing is modified. |
| Headers.HeaderCarrier.Keys | src/lib.rs:208-210 | The stored names, each exactly once. Nothing is modified. |
| Headers.HeaderCarrier.Set | src/lib.rs:214-219 | Exactly the lower-cased key is mapped to the value's bytes, and every other name keeps its value. Names stay lower-case. |
| Headers.SetThenGet | src/lib.rs:204-219 | After a write, any spelling of the written name reads the written value, and that value is given back as text exactly when it is visible ASCII. Every other name reads as before. |
| Otel.Span.Start | src/lib.rs:147 | A built span records the builder's name, kind, parent and attributes. Its status is unset, it has no events, and it is not ended. |
| Otel.Span.SetAttribute | src/lib.rs:161 | On a live span the attribute is appended. An ended span is unchanged. |
| Otel.Span.SetStatus | src/lib.rs:163-177 | On a live span the status is replaced. An ended span is unchanged. |
| Otel.Span.RecordException | src/lib.rs:178-182 | On a live span the event is appended. An ended span is unchanged. |
| Otel.Span.End | src/lib.rs:172-183 | The span is ended, the end count goes up by one, and nothing else changes. |
| Otel.LookupMeaning | src/lib.rs:146 | An attribute key reads as nothing exactly when no entry has it, and otherwise as its last entry's value. |

## Left out

- `poll_ready` (src/lib.rs:112-114) and the future plumbing (`with_context`, `map`,
  `Box::pin`): asynchronous scheduling. The completion handler is an ordinary method
  called with the wrapped service's result.
- Attaching and detaching the ambient context (src/lib.rs:148-149, 188): thread-local
  state inside the opentelemetry crate.
- The trace-context codec of the global propagator (src/lib.rs:117-119, 157-159).
  Extraction is a function parameter over the request's header entries. Injection is the
  list of fields it writes, applied through `HeaderCarrier.Set` in order.
- Tracer construction, `Layer`, `Layer::new` and `Service::new` (src/lib.rs:61-96), and
  span building in the tracing backend: construction and foreign calls. `Span.Start`
  stands for the built span.
- The `sysinfo` host-name lookup (src/lib.rs:23-25, 132): the host name is a parameter.
- Backtrace capture and rendering (src/lib.rs:178-179): a service error carries its
  backtrace text, if any, and the exception event stores it as the stack trace.
- The panics of `HeaderName::from_bytes` and `HeaderValue::from_str` (src/lib.rs:216-217):
  a valid name and value are preconditions of `Set`.
- Headers.HeaderCarrier.Keys: the order of the names is not stated, because the header
  map's iteration order belongs to the `http` crate.
- Multi-valued headers: a header map holds one value per name, and `Set` replaces it, as
  `insert` does.
- The `http` crate's limit on the length of a header name: any valid token is accepted.
- Middleware.Call: the wrapped service is a bare result that never writes to the span
  made current for it (src/lib.rs:148-149, 154). A service that adds attributes or events,
  or ends the span itself, is not modelled by `Call`; `Complete` does cover a span that
  is already ended when the handler runs.
- Cancellation: a future dropped before completion never ends its span. A sequential
  model cannot express this, and the model does not claim to cover it.
- The SDK's attribute map: a span keeps the ordered list of attributes written to it,
  and `Lookup` lets a later write of a key win, as the map does.
