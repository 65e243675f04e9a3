/** The OpenTelemetry values the middleware writes (attributes, status, exception events)
    and the span it writes them on. The span follows the SDK's behaviour: once ended it
    stops recording, and every further update is ignored. */
module Otel {
  import opened Http

  /** An attribute value: the middleware writes strings and one 64-bit integer. */
  datatype Value = Str(s: string) | I64(n: int)

  datatype KeyValue = KeyValue(key: string, value: Value)

  // The semantic-convention keys the middleware writes.
  const HTTP_METHOD: string := "http.method"
  const HTTP_FLAVOR: string := "http.flavor"
  const HTTP_URL: string := "http.url"
  const NET_HOST_NAME: string := "net.host.name"
  const HTTP_TARGET: string := "http.target"
  const HTTP_USER_AGENT: string := "http.user_agent"
  const HTTP_STATUS_CODE: string := "http.status_code"

  datatype SpanKind = Internal | Server | Client | Producer | Consumer

  /** A span's status. The middleware only ever sets `StatusError`. */
  datatype Status = Unset | StatusOk | StatusError(description: string)

  /** An exception event: the error's message and, when the error carries one, its
      stack trace. */
  datatype Event = Exception(message: string, stacktrace: Option<string>)

  /** The identity of a span that a propagator carries across process boundaries. */
  datatype SpanContext = SpanContext(traceId: nat, spanId: nat)

  /** What the propagator extracts: a remote parent, or nothing (the span is a root). */
  datatype Context = NoParent | RemoteParent(parent: SpanContext)

  /** The value last written under `key`; an SDK span keeps one value per key, the later
      write replacing the earlier. */
  function Lookup(attributes: seq<KeyValue>, key: string): Option<Value>
  {
    if attributes == [] then None
    else if attributes[|attributes| - 1].key == key then Some(attributes[|attributes| - 1].value)
    else Lookup(attributes[..|attributes| - 1], key)
  }

  /** A key reads as nothing exactly when no entry has it, and otherwise as the value of
      its last entry. */
  lemma {:induction false} LookupMeaning(attributes: seq<KeyValue>, key: string)
    ensures Lookup(attributes, key).None? <==> forall i :: 0 <= i < |attributes| ==> attributes[i].key != key
    ensures Lookup(attributes, key).Some? ==>
      (exists i :: 0 <= i < |attributes| &&
         attributes[i] == KeyValue(key, Lookup(attributes, key).value) &&
         forall j :: i < j < |attributes| ==> attributes[j].key != key)
  {
    if attributes != [] {
      var n := |attributes| - 1;
      LookupMeaning(attributes[..n], key);
      if attributes[n].key != key {
        if Lookup(attributes, key).Some? {
          var i :| 0 <= i < n && attributes[..n][i] == KeyValue(key, Lookup(attributes, key).value) &&
            forall j :: i < j < n ==> attributes[..n][j].key != key;
          assert attributes[i] == attributes[..n][i];
          assert forall j :: i < j < |attributes| ==> attributes[j].key != key by {
            forall j | i < j < |attributes| ensures attributes[j].key != key {
              if j < n { assert attributes[j] == attributes[..n][j]; }
            }
          }
        } else {
          forall i | 0 <= i < |attributes| ensures attributes[i].key != key {
            if i < n { assert attributes[i] == attributes[..n][i]; }
          }
        }
      }
    }
  }

  /** The keys of an attribute list, in order. */
  function KeysOf(attributes: seq<KeyValue>): (r: seq<string>)
    ensures |r| == |attributes|
    ensures forall i :: 0 <= i < |r| ==> r[i] == attributes[i].key
  {
    if attributes == [] then [] else KeysOf(attributes[..|attributes| - 1]) + [attributes[|attributes| - 1].key]
  }

  /** The keys of a concatenation are the keys of its parts. */
  lemma {:induction false} KeysOfConcat(a: seq<KeyValue>, b: seq<KeyValue>)
    ensures KeysOf(a + b) == KeysOf(a) + KeysOf(b)
  {
    var l, r := KeysOf(a + b), KeysOf(a) + KeysOf(b);
    assert |l| == |r|;
    forall i | 0 <= i < |l| ensures l[i] == r[i] {
      if i < |a| { assert (a + b)[i] == a[i]; } else { assert (a + b)[i] == b[i - |a|]; }
    }
  }

  /** In a list that never repeats a key, a key reads as the value stored beside it. */
  lemma {:induction false} LookupDistinct(attributes: seq<KeyValue>, i: nat)
    requires i < |attributes|
    requires forall j, k :: 0 <= j < k < |attributes| ==> attributes[j].key != attributes[k].key
    ensures Lookup(attributes, attributes[i].key) == Some(attributes[i].value)
  {
    var n := |attributes| - 1;
    if i < n {
      assert attributes[n].key != attributes[i].key;
      LookupDistinct(attributes[..n], i);
    }
  }

  /** A started span. */
  class Span {
    const name: string
    const kind: SpanKind
    const parent: Context
    var attributes: seq<KeyValue>
    var status: Status
    var events: seq<Event>
    var ended: bool
    /** How many times `End` has been called on this span. */
    ghost var endCalls: nat

    ghost predicate Valid()
      reads this
    {
      ended <==> endCalls > 0
    }

    /** Building a span from a builder starts it: it records, and nothing is set yet
        beyond the builder's attributes. */
    constructor Start(name: string, kind: SpanKind, parent: Context, attributes: seq<KeyValue>)
      ensures Valid()
      ensures this.name == name && this.kind == kind && this.parent == parent
      ensures this.attributes == attributes && status == Unset && events == []
      ensures !ended && endCalls == 0
    {
      this.name, this.kind, this.parent := name, kind, parent;
      this.attributes, status, events := attributes, Unset, [];
      ended, endCalls := false, 0;
    }

    method SetAttribute(kv: KeyValue)
      requires Valid()
      modifies this
      ensures Valid()
      ensures attributes == if old(ended) then old(attributes) else old(attributes) + [kv]
      ensures status == old(status) && events == old(events)
      ensures ended == old(ended) && endCalls == old(endCalls)
    {
      if !ended {
        attributes := attributes + [kv];
      }
    }

    method SetStatus(s: Status)
      requires Valid()
      modifies this
      ensures Valid()
      ensures status == if old(ended) then old(status) else s
      ensures attributes == old(attributes) && events == old(events)
      ensures ended == old(ended) && endCalls == old(endCalls)
    {
      if !ended {
        status := s;
      }
    }

    method RecordException(e: Event)
      requires Valid()
      modifies this
      ensures Valid()
      ensures events == if old(ended) then old(events) else old(events) + [e]
      ensures attributes == old(attributes) && status == old(status)
      ensures ended == old(ended) && endCalls == old(endCalls)
    {
      if !ended {
        events := events + [e];
      }
    }

    /** Ends the span; a second call changes nothing but is counted. */
    method End()
      requires Valid()
      modifies this
      ensures Valid()
      ensures ended && endCalls == old(endCalls) + 1
      ensures attributes == old(attributes) && status == old(status) && events == old(events)
    {
      ended := true;
      endCalls := endCalls + 1;
    }
  }
}
