/** What a handler does to its `http.ResponseWriter` and the log, as a sequence of events. */
module Http {
  import opened Wrappers

  const StatusOK: int := 200
  const StatusInternalServerError: int := 500

  const ContentTypeHeader: string := "Content-Type"
  const JsonMediaType: string := "application/json"

  /** Parsed query parameters (Go's `url.Values`). */
  type Query = map<string, seq<string>>

  /** Go's `url.Values.Get`: the first value of `key`, or "" when it has none. */
  function QueryGet(query: Query, key: string): (value: string)
    ensures key !in query ==> value == ""
    ensures key in query && |query[key]| > 0 ==> value == query[key][0]
    ensures key in query && |query[key]| == 0 ==> value == ""
  {
    if key in query && |query[key]| > 0 then query[key][0] else ""
  }

  /** One step of a handler: a header set, a log line, a `WriteHeader` call, or an attempt
      to JSON-encode `body` onto the response. */
  datatype Event<B> =
    | SetHeader(key: string, value: string)
    | Log(line: string)
    | WriteHeader(status: int)
    | Encode(body: B)

  type Trace<B> = seq<Event<B>>

  /** Whether encoding a body fails, and with what error text: `None` when it succeeds. */
  type Encoder<!B> = B -> Option<string>

  function StatusesOf<B>(e: Event<B>): seq<int> {
    if e.WriteHeader? then [e.status] else []
  }

  function BodiesOf<B>(e: Event<B>): seq<B> {
    if e.Encode? then [e.body] else []
  }

  function HeadersOf<B>(e: Event<B>): seq<(string, string)> {
    if e.SetHeader? then [(e.key, e.value)] else []
  }

  function LogsOf<B>(e: Event<B>): seq<string> {
    if e.Log? then [e.line] else []
  }

  /** The statuses passed to `WriteHeader`, in order. */
  function Statuses<B>(t: Trace<B>): seq<int>
  {
    if |t| == 0 then []
    else StatusesOf(t[0]) + Statuses(t[1..])
  }

  /** The bodies encoded onto the response, in order. */
  function Bodies<B>(t: Trace<B>): seq<B>
  {
    if |t| == 0 then []
    else BodiesOf(t[0]) + Bodies(t[1..])
  }

  /** The lines logged, in order. */
  function Logs<B>(t: Trace<B>): seq<string>
  {
    if |t| == 0 then []
    else LogsOf(t[0]) + Logs(t[1..])
  }

  /** The headers set, as (key, value) pairs, in order. */
  function Headers<B>(t: Trace<B>): seq<(string, string)> {
    if |t| == 0 then []
    else HeadersOf(t[0]) + Headers(t[1..])
  }

  /** The response starts by declaring JSON, and no other header is ever set. */
  predicate DeclaredJson<B>(t: Trace<B>) {
    && |t| > 0 && t[0] == SetHeader(ContentTypeHeader, JsonMediaType)
    && Headers(t) == [(ContentTypeHeader, JsonMediaType)]
  }

  /** A failed list request as the caller sees it: a single 500 and the single `errorBody`,
      which the handlers build from constants only, whatever the underlying error was. */
  predicate RespondedUnavailable<B(==)>(t: Trace<B>, errorBody: B) {
    && Statuses(t) == [StatusInternalServerError]
    && Bodies(t) == [errorBody]
  }

  lemma {:induction false} StatusesAppend<B>(a: Trace<B>, b: Trace<B>)
    ensures Statuses(a + b) == Statuses(a) + Statuses(b)
    decreases |a|
  {
    if |a| == 0 {
      assert a + b == b;
    } else {
      assert (a + b)[0] == a[0];
      assert (a + b)[1..] == a[1..] + b;
      calc {
        Statuses(a + b);
        StatusesOf(a[0]) + Statuses(a[1..] + b);
        { StatusesAppend(a[1..], b); }
        StatusesOf(a[0]) + (Statuses(a[1..]) + Statuses(b));
        (StatusesOf(a[0]) + Statuses(a[1..])) + Statuses(b);
      }
    }
  }

  lemma {:induction false} BodiesAppend<B>(a: Trace<B>, b: Trace<B>)
    ensures Bodies(a + b) == Bodies(a) + Bodies(b)
    decreases |a|
  {
    if |a| == 0 {
      assert a + b == b;
    } else {
      assert (a + b)[0] == a[0];
      assert (a + b)[1..] == a[1..] + b;
      calc {
        Bodies(a + b);
        BodiesOf(a[0]) + Bodies(a[1..] + b);
        { BodiesAppend(a[1..], b); }
        BodiesOf(a[0]) + (Bodies(a[1..]) + Bodies(b));
        (BodiesOf(a[0]) + Bodies(a[1..])) + Bodies(b);
      }
    }
  }

  lemma {:induction false} LogsAppend<B>(a: Trace<B>, b: Trace<B>)
    ensures Logs(a + b) == Logs(a) + Logs(b)
    decreases |a|
  {
    if |a| == 0 {
      assert a + b == b;
    } else {
      assert (a + b)[0] == a[0];
      assert (a + b)[1..] == a[1..] + b;
      calc {
        Logs(a + b);
        LogsOf(a[0]) + Logs(a[1..] + b);
        { LogsAppend(a[1..], b); }
        LogsOf(a[0]) + (Logs(a[1..]) + Logs(b));
        (LogsOf(a[0]) + Logs(a[1..])) + Logs(b);
      }
    }
  }

  lemma {:induction false} HeadersAppend<B>(a: Trace<B>, b: Trace<B>)
    ensures Headers(a + b) == Headers(a) + Headers(b)
    decreases |a|
  {
    if |a| == 0 {
      assert a + b == b;
    } else {
      assert (a + b)[0] == a[0];
      assert (a + b)[1..] == a[1..] + b;
      calc {
        Headers(a + b);
        HeadersOf(a[0]) + Headers(a[1..] + b);
        { HeadersAppend(a[1..], b); }
        HeadersOf(a[0]) + (Headers(a[1..]) + Headers(b));
        (HeadersOf(a[0]) + Headers(a[1..])) + Headers(b);
      }
    }
  }

  /** The four projections of a trace distribute over running one step sequence after another. */
  lemma ProjectionsAppend<B>(a: Trace<B>, b: Trace<B>)
    ensures Statuses(a + b) == Statuses(a) + Statuses(b)
    ensures Bodies(a + b) == Bodies(a) + Bodies(b)
    ensures Logs(a + b) == Logs(a) + Logs(b)
    ensures Headers(a + b) == Headers(a) + Headers(b)
  {
    StatusesAppend(a, b);
    BodiesAppend(a, b);
    LogsAppend(a, b);
    HeadersAppend(a, b);
  }

  /** A one-event trace projects to that event's own contribution. */
  lemma SingleProjections<B>(e: Event<B>)
    ensures Statuses([e]) == StatusesOf(e)
    ensures Bodies([e]) == BodiesOf(e)
    ensures Logs([e]) == LogsOf(e)
    ensures Headers([e]) == HeadersOf(e)
  {
    assert [e][1..] == [];
  }

  /** Writing a status and then encoding a body: one status, one body, no header, no log line. */
  lemma WrittenProjections<B>(status: int, body: B)
    ensures Statuses([WriteHeader(status), Encode(body)]) == [status]
    ensures Bodies([WriteHeader(status), Encode(body)]) == [body]
    ensures Logs([WriteHeader(status), Encode(body)]) == []
    ensures Headers([WriteHeader(status), Encode(body)]) == []
  {
    var first: Trace<B> := [WriteHeader(status)];
    var second: Trace<B> := [Encode(body)];
    SingleProjections(first[0]);
    SingleProjections(second[0]);
    assert first + second == [WriteHeader(status), Encode(body)];
    ProjectionsAppend(first, second);
  }

  /** The projections of a write followed by a logged failure and a fallback response. */
  lemma FallbackProjections<B>(written: Trace<B>, line: string, fallback: Trace<B>)
    ensures Statuses(written + ([Log(line)] + fallback)) == Statuses(written) + Statuses(fallback)
    ensures Bodies(written + ([Log(line)] + fallback)) == Bodies(written) + Bodies(fallback)
    ensures Headers(written + ([Log(line)] + fallback)) == Headers(written) + Headers(fallback)
    ensures Logs(written + ([Log(line)] + fallback)) == Logs(written) + ([line] + Logs(fallback))
  {
    var logged: Trace<B> := [Log(line)];
    var rest := logged + fallback;
    SingleProjections(logged[0]);
    StatusesAppend(logged, fallback);
    assert Statuses(rest) == Statuses(fallback);
    StatusesAppend(written, rest);
    BodiesAppend(logged, fallback);
    assert Bodies(rest) == Bodies(fallback);
    BodiesAppend(written, rest);
    HeadersAppend(logged, fallback);
    assert Headers(rest) == Headers(fallback);
    HeadersAppend(written, rest);
    LogsAppend(logged, fallback);
    LogsAppend(written, rest);
  }
}
