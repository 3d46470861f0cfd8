# ASGI tracing middleware: request and message annotation

A Dafny model of the annotation policy of the OpenTelemetry ASGI
middleware (`opentelemetry.ext.asgi`). The middleware wraps an ASGI
application. Each connection gets a span named after the request path,
and every `receive()` or `send()` call the application makes gets a
child span of its own. This model covers the four helpers the middleware
is built from and what the two wrappers record on each child span:

- `get_header_from_scope`: the values of the scope's header pairs whose key is the
  requested name, in order (`Asgi.GetHeaderFromScope`, `Asgi.ValuesWithKey`);
- `get_default_span_name`: the path, or `"/"` when the scope has none
  (`Asgi.DefaultSpanName`);
- `collect_request_attributes`: the eight base attributes, plus the peer address and
  port when the scope has a `client` (`Asgi.CollectRequestAttributes`);
- `set_status_code`: coerce the status with `int()`. An integer is recorded as
  `http.status_code`, with its canonical status code. A non-integer sets status
  UNKNOWN with a diagnostic message (`Asgi.SetStatusCode`);
- `wrapped_receive` and `wrapped_send`: open a span named
  `<span_name> (unknown-receive)` or `<span_name> (unknown-send)`. Then record the
  status that the message type calls for, rename the span `<span_name> (<type>)`,
  tag it with `type`, and return or forward the message unchanged
  (`Asgi.WrappedReceive`, `Asgi.WrappedSend`).

Layout:

- `python_values.dfy` (module `PythonValues`): the Python values found in a scope
  or message. `Entry` is one dict key: missing, holding `None`, or holding a value.
  It also holds the exceptions that escape the code (`TypeError`, `KeyError`) and
  `Result` (returned or raised).
- `int_coercion.dfy` (module `IntCoercion`): Python's `int(x)` for None, bool, int,
  str, bytes and lists, and `str(n)`, with the round trip `int(str(n)) == n`.
- `python_repr.dfy` (module `PythonRepr`): Python's `repr(x)`, which the
  non-integer status message embeds.
- `spans.dfy` (module `Spans`): the tracer's span as the middleware uses it. A
  `Span` class has `SetAttribute`, `SetStatus` and `UpdateName`, and `SpanData`
  is a snapshot of a span's name, attributes and status.
- `asgi.dfy` (module `Asgi`): the middleware's own logic.

`set_status_code` and the two wrappers change a span step by step, so they are
methods on a `Span`. Each method is proved against a function on `SpanData`:
`StatusCodeApplied`, `ReceiveAnnotated` and `SendAnnotated`. The lemmas after
those functions state what the source promises. An exception the source does not
catch becomes a `Raised` outcome, and the span keeps what was recorded before the
exception. Examples: `payload['type']` on a message without a type, `int(None)`,
concatenating a message type that is not a str, indexing a missing `server`.
The wrapper then returns or forwards nothing. One consequence: a websocket send that carries only bytes, with
no `"text"` key, raises `KeyError` and is never handed to the real `send()`.

Behaviour of the code worth knowing:

- `get_header_from_scope` raises `TypeError` when the scope has no `headers`. It
  does not return an empty list.
- `http.server_name` is the bare host.
- `http.target` and `http.flavor` are always present, and hold `None` when the
  scope lacks them.
- `set_status_code` lets the `TypeError` of `int(None)` escape.

`http_status_to_canonical_code` is defined in another package. It is a parameter
here (`toCanonical: int -> CanonicalCode`) that the model never inspects. The
ASGI message the underlying `receive()` returned is a parameter of
`WrappedReceive`.

## Model

| member | source | states |
|---|---|---|
| `Asgi.ValuesWithKey` | ext/opentelemetry-ext-asgi/src/opentelemetry/ext/asgi/__init__.py:37-40 | the result is never longer than the header list, and each value in it is the value of some pair whose key equals the requested name |
| `Asgi.GetHeaderFromScope` | ext/opentelemetry-ext-asgi/src/opentelemetry/ext/asgi/__init__.py:33-40 | raises TypeError exactly when the scope's `headers` entry is missing or None; otherwise returns a list no longer than the headers |
| `Asgi.ValuesWithKeyComplete` | ext/opentelemetry-ext-asgi/src/opentelemetry/ext/asgi/__init__.py:37-40 | every pair whose key equals the name contributes its value |
| `Asgi.ValuesWithKeyAppend` | ext/opentelemetry-ext-asgi/src/opentelemetry/ext/asgi/__init__.py:37-40 | filtering a concatenation is the concatenation of the filtered parts, so the values keep their pairs' relative order |
| `Asgi.HeaderValuesInOrder` | ext/opentelemetry-ext-asgi/src/opentelemetry/ext/asgi/__init__.py:37-40 | two matching pairs at positions i < k appear in the result at positions p < q |
| `Asgi.ValuesWithKeyNoMatch` | ext/opentelemetry-ext-asgi/src/opentelemetry/ext/asgi/__init__.py:37-40 | with no pair named the requested name, the result is the empty list |
| `Asgi.DefaultSpanName` | ext/opentelemetry-ext-asgi/src/opentelemetry/ext/asgi/__init__.py:43-44 | the path when the scope has one; `"/"` when the key is missing; None when the key holds None |
| `Asgi.CollectRequestAttributes` | ext/opentelemetry-ext-asgi/src/opentelemetry/ext/asgi/__init__.py:47-66 | returns exactly when `server` is present and `client` does not hold None, otherwise TypeError. The keys are the eight base keys, plus `net.peer.ip`/`net.peer.port` exactly when `client` is present. `http.server_name` and `http.host` are `server[0]`, `http.port` is `server[1]`, the peer keys are `client[0]`/`client[1]`, and the rest are the scope's values or None |
| `Asgi.NoneClientRaises` | ext/opentelemetry-ext-asgi/src/opentelemetry/ext/asgi/__init__.py:62-64 | a scope whose `client` holds None makes the collection raise TypeError |
| `Asgi.CollectRequestAttributesNoneSafe` | ext/opentelemetry-ext-asgi/src/opentelemetry/ext/asgi/__init__.py:62-64 | with None read as an absent client: returns whenever `server` is present; the keys are exactly the eight base keys plus `net.peer.ip`/`net.peer.port` when a client address is present, with the client's host and port as values |
| `Asgi.SetStatusCode` | ext/opentelemetry-ext-asgi/src/opentelemetry/ext/asgi/__init__.py:69-81 | the span's new name, attributes and status, and the exception raised, are those of `StatusCodeApplied` on the span's old record |
| `Asgi.IntegerStatusRecorded` | ext/opentelemetry-ext-asgi/src/opentelemetry/ext/asgi/__init__.py:79-81 | a status `int()` accepts as n sets `http.status_code` to n and the status to the canonical code of n; name and other attributes unchanged |
| `Asgi.NonIntegerStatusIsUnknown` | ext/opentelemetry-ext-asgi/src/opentelemetry/ext/asgi/__init__.py:70-78 | a status `int()` rejects with ValueError sets status UNKNOWN with message `"Non-integer HTTP status: " + repr(value)` and leaves the attributes, so no `http.status_code` is recorded |
| `Asgi.NonIntegerTextStatus` | ext/opentelemetry-ext-asgi/src/opentelemetry/ext/asgi/__init__.py:70-78 | a plain text with no digit, such as "abc", yields status UNKNOWN whose message ends with the text in single quotes, and no new attribute |
| `Asgi.DecimalTextStatus` | ext/opentelemetry-ext-asgi/src/opentelemetry/ext/asgi/__init__.py:69-81 | the decimal text of any integer n as status records `http.status_code` n and the canonical code of n |
| `IntCoercion.ParseIntOfIntToString` | ext/opentelemetry-ext-asgi/src/opentelemetry/ext/asgi/__init__.py:71 | `int()` reads the decimal text of every integer back as that integer |
| `IntCoercion.NoDigitNoInteger` | ext/opentelemetry-ext-asgi/src/opentelemetry/ext/asgi/__init__.py:71-72 | `int()` of a text without any digit raises ValueError |
| `PythonRepr.ReprOfPlainText` | ext/opentelemetry-ext-asgi/src/opentelemetry/ext/asgi/__init__.py:76 | `repr()` of printable ASCII text with no quote or backslash is that text in single quotes |
| `Asgi.WrappedReceive` | ext/opentelemetry-ext-asgi/src/opentelemetry/ext/asgi/__init__.py:102-112 | a newly allocated span, one per call, ends as `ReceiveAnnotated` says. The result is the received message itself, unchanged, or the exception `ReceiveAnnotated` names |
| `Asgi.ReceiveRaisesExactly` | ext/opentelemetry-ext-asgi/src/opentelemetry/ext/asgi/__init__.py:105-111 | the receive completes exactly when the message has a str `type` and, for `websocket.receive`, a `text`. Otherwise: KeyError('type'), KeyError('text') or TypeError |
| `Asgi.ReceiveRenamesAndTags` | ext/opentelemetry-ext-asgi/src/opentelemetry/ext/asgi/__init__.py:104-111 | a completed receive names the span `span_name + " (" + type + ")"` and sets attribute `type` to the message type. A raising one keeps `span_name + " (unknown-receive)"` and has no `type` |
| `Asgi.ReceiveStatusOnlyForWebsocket` | ext/opentelemetry-ext-asgi/src/opentelemetry/ext/asgi/__init__.py:106-108 | a status is recorded exactly for `websocket.receive`: status code 200 with its canonical code, and `http.status_text` equal to the message's text. No other attribute keys than `type`, `http.status_code`, `http.status_text` |
| `Asgi.WebsocketReceiveRecorded` | ext/opentelemetry-ext-asgi/src/opentelemetry/ext/asgi/__init__.py:106-111 | a websocket frame carrying text ends with exactly: name `span_name (websocket.receive)`, attributes 200 / the text / the type, status canonical(200) |
| `Asgi.OtherReceiveOnlyTagged` | ext/opentelemetry-ext-asgi/src/opentelemetry/ext/asgi/__init__.py:106-111 | any other str message type (e.g. `http.request`) is renamed and tagged with `type` only, with no status |
| `Asgi.WrappedSend` | ext/opentelemetry-ext-asgi/src/opentelemetry/ext/asgi/__init__.py:114-126 | a newly allocated span, one per call, ends as `SendAnnotated` says. The underlying `send` receives the message itself, unchanged, exactly when the wrapper raised nothing, and nothing otherwise |
| `Asgi.SendRaisesExactly` | ext/opentelemetry-ext-asgi/src/opentelemetry/ext/asgi/__init__.py:117-126 | the send completes, and so forwards, exactly when the message has a str `type`, a response start has a `status` that `int()` does not reject with TypeError, and a websocket send has a `text` |
| `Asgi.SendRenamesAndTags` | ext/opentelemetry-ext-asgi/src/opentelemetry/ext/asgi/__init__.py:116-125 | a completed send names the span `span_name + " (" + type + ")"` and tags `type`. A raising one keeps `span_name + " (unknown-send)"` and has no `type` |
| `Asgi.SendStatusOnlyForStartOrWebsocket` | ext/opentelemetry-ext-asgi/src/opentelemetry/ext/asgi/__init__.py:117-122 | a status is recorded only for `http.response.start` (what `set_status_code` makes of `status`) or `websocket.send` (200 and `http.status_text` = text). No attribute keys besides `type`, `http.status_code`, `http.status_text` |
| `Asgi.ResponseStartRecorded` | ext/opentelemetry-ext-asgi/src/opentelemetry/ext/asgi/__init__.py:117-126 | a response start with integer status c ends with exactly: name `span_name (http.response.start)`, attributes `http.status_code` c and the type, status canonical(c); it completes |
| `Asgi.BinaryWebsocketSendNotForwarded` | ext/opentelemetry-ext-asgi/src/opentelemetry/ext/asgi/__init__.py:120-122 | a websocket send without `text` raises KeyError('text'), so it is not forwarded |

## Findings

| source | as written | input that shows it | evidently intended | confidence | as-written member | corrected member |
|---|---|---|---|---|---|---|
| ext/opentelemetry-ext-asgi/src/opentelemetry/ext/asgi/__init__.py:62-64 | tests `"client" in scope`, then indexes `scope.get("client")[0]` | a scope with a `server` and `"client": None`, which the ASGI connection scope specification allows ("optional; defaults to None") | treat a None client like a missing one: no peer attributes, no exception | medium; not executed | `Asgi.NoneClientRaises` | `Asgi.CollectRequestAttributesNoneSafe` |

## Left out

- The tracer and its context: `trace.tracer_source()`, `propagators.extract`, and
  `start_as_current_span` with its parent linkage and span kind. The root span and
  its attributes are not modelled, nor is ending spans when a `with` block exits.
  These are calls into the tracing library, whose code is not part of this model.
- The asynchronous plumbing, which is transport I/O and coroutine machinery:
  `guarantee_single_callable`, the call to `self.app`, and awaiting the real
  `receive()` and `send()`. The received message is a parameter, and the forwarded
  message is an out-parameter. Exceptions raised by `receive()` or `send()`
  themselves are not modelled.
- `http_status_to_canonical_code` is part of `opentelemetry.ext.wsgi`, which is not
  part of this model. It is an arbitrary parameter function, so no HTTP-range
  mapping is assumed.
- UTF-8 decoding of header bytes and its `UnicodeDecodeError`: header names and
  values are already-decoded strings. Header entries that are not two-item pairs
  are not modelled either.
- `int()` is modelled on ASCII text only: the whitespace set is space, tab, LF, VT,
  FF and CR. Unicode digits, other Unicode whitespace, floats and objects with
  `__int__` are not modelled.
- `repr()` escapes control characters up to U+00FF. Non-printable characters above
  U+00FF are copied unescaped.
- The SDK's own handling of attribute values: `set_attribute` stores any value,
  None included, as given.
- `Asgi.WrappedReceive`, `Asgi.WrappedSend`: take the span name as a string. A
  scope whose `path` holds None gives a None span name (`DefaultSpanName` returns
  None). The `TypeError` the wrappers' concatenation would then raise is not
  modelled.
- Scope fields `type`, `method`, `path`, `http_version` and `scheme` are modelled
  as strings when present, as ASGI specifies. `server` and `client` are modelled
  as two-item pairs.
- Marking the root span as failed when the application raises: the code does
  not do it.
- The test harness `asgitestutil.py`: an event-loop and exporter fixture with no
  logic of its own.
