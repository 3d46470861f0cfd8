/** The ASGI tracing middleware: reading headers and request attributes
    from the connection scope, recording an HTTP status on a span, and
    annotating the span that wraps each received or sent message. */
module Asgi {
  import opened PythonValues
  import opened IntCoercion
  import opened PythonRepr
  import opened Spans

  // ---------------------------------------------------------------------
  // Scope and messages

  /** One `(name, value)` header pair, both already decoded from UTF-8 */
  datatype Header = Header(key: string, value: string)

  /** A `(host, port)` pair as the scope's "server" and "client" hold it */
  datatype Address = Address(host: Value, port: Value)

  /** The keys of the ASGI connection scope the middleware reads */
  datatype Scope = Scope(
    connectionType: Entry<string>,   // "type"
    httpMethod: Entry<string>,       // "method"
    path: Entry<string>,
    httpVersion: Entry<string>,      // "http_version"
    scheme: Entry<string>,
    server: Entry<Address>,
    client: Entry<Address>,
    headers: Entry<seq<Header>>)

  /** An ASGI event dictionary, as returned by `receive()` or given to `send()` */
  type Message = map<string, Value>

  const TypeKey := "type"
  const StatusKey := "status"
  const TextKey := "text"

  const HttpResponseStart := "http.response.start"
  const WebsocketSend := "websocket.send"
  const WebsocketReceive := "websocket.receive"

  // Span attribute keys
  const ComponentKey := "component"
  const MethodKey := "http.method"
  const ServerNameKey := "http.server_name"
  const SchemeKey := "http.scheme"
  const HostKey := "http.host"
  const PortKey := "http.port"
  const FlavorKey := "http.flavor"
  const TargetKey := "http.target"
  const PeerIpKey := "net.peer.ip"
  const PeerPortKey := "net.peer.port"
  const StatusCodeKey := "http.status_code"
  const StatusTextKey := "http.status_text"

  const BaseAttributeKeys: set<string> :=
    {ComponentKey, MethodKey, ServerNameKey, SchemeKey, HostKey, PortKey, FlavorKey, TargetKey}
  const PeerAttributeKeys: set<string> := {PeerIpKey, PeerPortKey}

  const UnknownReceiveSuffix := " (unknown-receive)"
  const UnknownSendSuffix := " (unknown-send)"
  const NonIntegerStatusPrefix := "Non-integer HTTP status: "

  // ---------------------------------------------------------------------
  // get_header_from_scope

  /** The values of the pairs whose key is `name`, in order */
  function ValuesWithKey(headers: seq<Header>, name: string): (r: seq<string>)
    ensures |r| <= |headers|
    ensures forall j :: 0 <= j < |r| ==>
              exists i :: 0 <= i < |headers| && headers[i].key == name && headers[i].value == r[j]
  {
    if headers == [] then []
    else
      var rest := ValuesWithKey(headers[1..], name);
      if headers[0].key == name then [headers[0].value] + rest else rest
  }

  /** `get_header_from_scope(scope, header_name)`: iterating over a missing
      or None "headers" entry raises TypeError. */
  function GetHeaderFromScope(scope: Scope, headerName: string): (r: Result<seq<string>>)
    ensures r.Returned? <==> scope.headers.Present?
    ensures r.Raised? ==> r.error == TypeError
    ensures r.Returned? ==> |r.value| <= |scope.headers.value|
  {
    match scope.headers
    case Present(headers) => Returned(ValuesWithKey(headers, headerName))
    case _ => Raised(TypeError)
  }

  /** Filtering distributes over concatenation: the values keep the
      relative order their pairs have in the header list. */
  lemma {:induction false} ValuesWithKeyAppend(a: seq<Header>, b: seq<Header>, name: string)
    ensures ValuesWithKey(a + b, name) == ValuesWithKey(a, name) + ValuesWithKey(b, name)
  {
    if a == [] {
      assert a + b == b;
    } else {
      assert (a + b)[0] == a[0] && (a + b)[1..] == a[1..] + b;
      ValuesWithKeyAppend(a[1..], b, name);
    }
  }

  /** Every pair whose key is `name` contributes its value. */
  lemma {:induction false} ValuesWithKeyComplete(headers: seq<Header>, name: string, i: nat)
    requires i < |headers| && headers[i].key == name
    ensures headers[i].value in ValuesWithKey(headers, name)
  {
    if i > 0 {
      ValuesWithKeyComplete(headers[1..], name, i - 1);
    }
  }

  /** With no pair named `name`, the result is empty. */
  lemma {:induction false} ValuesWithKeyNoMatch(headers: seq<Header>, name: string)
    requires forall i :: 0 <= i < |headers| ==> headers[i].key != name
    ensures ValuesWithKey(headers, name) == []
  {
    if headers != [] {
      ValuesWithKeyNoMatch(headers[1..], name);
    }
  }

  /** Two matching pairs at positions i < k give two values in that order. */
  lemma HeaderValuesInOrder(headers: seq<Header>, name: string, i: nat, k: nat)
    requires i < k < |headers|
    requires headers[i].key == name && headers[k].key == name
    ensures exists p, q :: 0 <= p < q < |ValuesWithKey(headers, name)|
              && ValuesWithKey(headers, name)[p] == headers[i].value
              && ValuesWithKey(headers, name)[q] == headers[k].value
  {
    var front, back := headers[..k], headers[k..];
    assert headers == front + back;
    ValuesWithKeyAppend(front, back, name);
    ValuesWithKeyComplete(front, name, i);
    assert back == [headers[k]] + back[1..];
    ValuesWithKeyAppend([headers[k]], back[1..], name);
    var r := ValuesWithKey(headers, name);
    var rf := ValuesWithKey(front, name);
    var p :| 0 <= p < |rf| && rf[p] == headers[i].value;
    assert r[p] == headers[i].value;
    assert r[|rf|] == headers[k].value;
  }

  // ---------------------------------------------------------------------
  // get_default_span_name

  /** `scope.get("path", "/")`: None stands for a "path" entry holding None */
  function DefaultSpanName(scope: Scope): (r: Option<string>)
    ensures scope.path.Missing? ==> r == Some("/")
    ensures scope.path.Present? ==> r == Some(scope.path.value)
    ensures scope.path.Null? ==> r == None
  {
    match scope.path
    case Missing => Some("/")
    case Null => None
    case Present(p) => Some(p)
  }

  // ---------------------------------------------------------------------
  // collect_request_attributes

  /** `scope.get(key)` as an attribute value */
  function AttributeOf(e: Entry<string>): Value {
    match e.Get()
    case Some(s) => StrValue(s)
    case None => NoneValue
  }

  /** `collect_request_attributes(scope)`. Indexing `scope.get("server")`
      raises TypeError when "server" is missing or None; so does indexing
      "client" when that key is present but holds None. */
  function CollectRequestAttributes(scope: Scope): (r: Result<map<string, Value>>)
    ensures r.Returned? <==> scope.server.Present? && !scope.client.Null?
    ensures r.Raised? ==> r.error == TypeError
    ensures r.Returned? ==>
      r.value.Keys == BaseAttributeKeys + (if scope.client.Present? then PeerAttributeKeys else {})
    ensures r.Returned? ==>
      && r.value[ComponentKey] == AttributeOf(scope.connectionType)
      && r.value[MethodKey] == AttributeOf(scope.httpMethod)
      && r.value[SchemeKey] == AttributeOf(scope.scheme)
      && r.value[FlavorKey] == AttributeOf(scope.httpVersion)
      && r.value[TargetKey] == AttributeOf(scope.path)
      && r.value[ServerNameKey] == scope.server.value.host
      && r.value[HostKey] == scope.server.value.host
      && r.value[PortKey] == scope.server.value.port
    ensures r.Returned? && scope.client.Present? ==>
      r.value[PeerIpKey] == scope.client.value.host && r.value[PeerPortKey] == scope.client.value.port
  {
    match scope.server
    case Missing => Raised(TypeError)
    case Null => Raised(TypeError)
    case Present(server) =>
      var base := map[
        ComponentKey := AttributeOf(scope.connectionType),
        MethodKey := AttributeOf(scope.httpMethod),
        ServerNameKey := server.host,
        SchemeKey := AttributeOf(scope.scheme),
        HostKey := server.host,
        PortKey := server.port,
        FlavorKey := AttributeOf(scope.httpVersion),
        TargetKey := AttributeOf(scope.path)];
      match scope.client
      case Missing => Returned(base)
      case Null => Raised(TypeError)
      case Present(client) => Returned(base[PeerIpKey := client.host][PeerPortKey := client.port])
  }

  /** A scope whose "client" entry holds None, as the ASGI specification
      allows, makes the attribute collection raise. */
  lemma NoneClientRaises(scope: Scope)
    requires scope.server.Present? && scope.client.Null?
    ensures CollectRequestAttributes(scope) == Raised(TypeError)
  {
  }

  /** The collection with a None "client" read as an absent one */
  function CollectRequestAttributesNoneSafe(scope: Scope): (r: Result<map<string, Value>>)
    ensures r.Returned? <==> scope.server.Present?
    ensures r.Returned? ==>
      r.value.Keys == BaseAttributeKeys + (if scope.client.Present? then PeerAttributeKeys else {})
    ensures r.Returned? && scope.client.Present? ==>
      r.value[PeerIpKey] == scope.client.value.host && r.value[PeerPortKey] == scope.client.value.port
  {
    CollectRequestAttributes(if scope.client.Null? then scope.(client := Missing) else scope)
  }

  // ---------------------------------------------------------------------
  // set_status_code

  /** A span's record after a step, and the exception that ended the step, if any */
  datatype Annotated = Annotated(span: SpanData, raised: Option<PyException>)

  /** `set_status_code(span, status_code)` on the span's record */
  function StatusCodeApplied(d: SpanData, statusCode: Value, toCanonical: int -> CanonicalCode): Annotated {
    match ToInt(statusCode)
    case Converted(n) =>
      Annotated(d.(attributes := d.attributes[StatusCodeKey := IntValue(n)],
                   status := Some(Status(toCanonical(n), None))), None)
    case RaisesValueError =>
      Annotated(d.(status := Some(Status(Unknown, Some(NonIntegerStatusPrefix + Repr(statusCode))))), None)
    case RaisesTypeError =>
      Annotated(d, Some(TypeError))
  }

  /** `set_status_code(span, status_code)`; `toCanonical` stands for
      `http_status_to_canonical_code`. */
  method SetStatusCode(span: Span, statusCode: Value, toCanonical: int -> CanonicalCode)
    returns (raised: Option<PyException>)
    modifies span
    ensures Annotated(span.Data(), raised) == StatusCodeApplied(old(span.Data()), statusCode, toCanonical)
  {
    match ToInt(statusCode)
    case Converted(n) =>
      span.SetAttribute(StatusCodeKey, IntValue(n));
      span.SetStatus(Status(toCanonical(n), None));
      raised := None;
    case RaisesValueError =>
      span.SetStatus(Status(Unknown, Some(NonIntegerStatusPrefix + Repr(statusCode))));
      raised := None;
    case RaisesTypeError =>
      raised := Some(TypeError);
  }

  /** A value `int()` accepts sets `http.status_code` to that integer and
      the status to its canonical code; nothing else changes. */
  lemma IntegerStatusRecorded(d: SpanData, statusCode: Value, toCanonical: int -> CanonicalCode, n: int)
    requires ToInt(statusCode) == Converted(n)
    ensures var a := StatusCodeApplied(d, statusCode, toCanonical);
      && a.raised == None
      && a.span.name == d.name
      && a.span.attributes == d.attributes[StatusCodeKey := IntValue(n)]
      && a.span.status == Some(Status(toCanonical(n), None))
  {
  }

  /** A value `int()` rejects with ValueError sets status UNKNOWN with a
      message naming the value, and leaves the attributes as they were,
      so no `http.status_code` is recorded. */
  lemma NonIntegerStatusIsUnknown(d: SpanData, statusCode: Value, toCanonical: int -> CanonicalCode)
    requires ToInt(statusCode) == RaisesValueError
    ensures var a := StatusCodeApplied(d, statusCode, toCanonical);
      && a.raised == None
      && a.span.name == d.name
      && a.span.attributes == d.attributes
      && a.span.status == Some(Status(Unknown, Some(NonIntegerStatusPrefix + Repr(statusCode))))
  {
  }

  /** A text of plain characters with no digit in it (such as "abc") as a
      status: UNKNOWN, with the text in single quotes in the message. */
  lemma NonIntegerTextStatus(d: SpanData, text: string, toCanonical: int -> CanonicalCode)
    requires forall i :: 0 <= i < |text| ==> IsPlainChar(text[i]) && !IsDigit(text[i])
    ensures var a := StatusCodeApplied(d, StrValue(text), toCanonical);
      && a.raised == None
      && a.span.attributes == d.attributes
      && a.span.status == Some(Status(Unknown, Some(NonIntegerStatusPrefix + Repr(StrValue(text)))))
    ensures Repr(StrValue(text)) == "'" + text + "'"
  {
    NoDigitNoInteger(text);
    ReprOfPlainText(text);
  }

  /** The decimal text of an integer as a status is recorded as that integer. */
  lemma DecimalTextStatus(d: SpanData, n: int, toCanonical: int -> CanonicalCode)
    ensures var a := StatusCodeApplied(d, StrValue(IntToString(n)), toCanonical);
      && a.raised == None
      && a.span.attributes == d.attributes[StatusCodeKey := IntValue(n)]
      && a.span.status == Some(Status(toCanonical(n), None))
  {
    IntOfDecimalText(n);
  }

  // ---------------------------------------------------------------------
  // wrapped_receive / wrapped_send

  /** The name a message span is given once the message type is known */
  function AnnotatedName(spanName: string, messageType: string): string {
    spanName + " (" + messageType + ")"
  }

  /** The websocket branch of both wrappers: status 200, then the
      message's "text" as `http.status_text`. `int(200)` never raises. */
  function WebsocketAnnotated(d: SpanData, message: Message, toCanonical: int -> CanonicalCode): Annotated {
    var withCode := StatusCodeApplied(d, IntValue(200), toCanonical).span;
    if TextKey in message then
      Annotated(withCode.(attributes := withCode.attributes[StatusTextKey := message[TextKey]]), None)
    else
      Annotated(withCode, Some(KeyError(TextKey)))
  }

  /** The closing step of both wrappers: rename the span after the
      message type and tag it with the type. Concatenating a type that is
      not a str raises TypeError. */
  function Tagged(a: Annotated, spanName: string, messageType: Value): Annotated {
    if a.raised.Some? then a
    else if !messageType.StrValue? then Annotated(a.span, Some(TypeError))
    else
      Annotated(a.span.(name := AnnotatedName(spanName, messageType.s),
                        attributes := a.span.attributes[TypeKey := messageType]), None)
  }

  /** The span of one `wrapped_receive()` call, given the message the
      underlying `receive()` returned */
  function ReceiveAnnotated(spanName: string, message: Message, toCanonical: int -> CanonicalCode): Annotated {
    var started := Started(spanName + UnknownReceiveSuffix);
    if TypeKey !in message then Annotated(started, Some(KeyError(TypeKey)))
    else
      var messageType := message[TypeKey];
      var afterStatus :=
        if messageType == StrValue(WebsocketReceive) then WebsocketAnnotated(started, message, toCanonical)
        else Annotated(started, None);
      Tagged(afterStatus, spanName, messageType)
  }

  /** The span of one `wrapped_send(message)` call */
  function SendAnnotated(spanName: string, message: Message, toCanonical: int -> CanonicalCode): Annotated {
    var started := Started(spanName + UnknownSendSuffix);
    if TypeKey !in message then Annotated(started, Some(KeyError(TypeKey)))
    else
      var messageType := message[TypeKey];
      var afterStatus :=
        if messageType == StrValue(HttpResponseStart) then
          if StatusKey in message then StatusCodeApplied(started, message[StatusKey], toCanonical)
          else Annotated(started, Some(KeyError(StatusKey)))
        else if messageType == StrValue(WebsocketSend) then WebsocketAnnotated(started, message, toCanonical)
        else Annotated(started, None);
      Tagged(afterStatus, spanName, messageType)
  }

  /** `wrapped_receive()`: `received` is what the underlying `receive()`
      returned. The span is the one opened for this call; the result is
      the message itself, returned unchanged, or the exception raised. */
  method WrappedReceive(spanName: string, received: Message, toCanonical: int -> CanonicalCode)
    returns (span: Span, result: Result<Message>)
    ensures fresh(span)
    ensures span.Data() == ReceiveAnnotated(spanName, received, toCanonical).span
    ensures result == match ReceiveAnnotated(spanName, received, toCanonical).raised
                      case None => Returned(received)
                      case Some(e) => Raised(e)
  {
    span := new Span(spanName + UnknownReceiveSuffix);
    if TypeKey !in received {
      return span, Raised(KeyError(TypeKey));
    }
    var messageType := received[TypeKey];
    if messageType == StrValue(WebsocketReceive) {
      var codeRaised := SetStatusCode(span, IntValue(200), toCanonical);
      if TextKey !in received {
        return span, Raised(KeyError(TextKey));
      }
      span.SetAttribute(StatusTextKey, received[TextKey]);
    }
    if !messageType.StrValue? {
      return span, Raised(TypeError);
    }
    span.UpdateName(AnnotatedName(spanName, messageType.s));
    span.SetAttribute(TypeKey, messageType);
    result := Returned(received);
  }

  /** `wrapped_send(message)`: the span opened for this call, the messages
      handed on to the underlying `send()` (the message itself, unchanged,
      or none when the wrapper raised), and the exception raised. */
  method WrappedSend(spanName: string, message: Message, toCanonical: int -> CanonicalCode)
    returns (span: Span, forwarded: seq<Message>, raised: Option<PyException>)
    ensures fresh(span)
    ensures span.Data() == SendAnnotated(spanName, message, toCanonical).span
    ensures raised == SendAnnotated(spanName, message, toCanonical).raised
    ensures forwarded == if raised.None? then [message] else []
  {
    span := new Span(spanName + UnknownSendSuffix);
    if TypeKey !in message {
      return span, [], Some(KeyError(TypeKey));
    }
    var messageType := message[TypeKey];
    if messageType == StrValue(HttpResponseStart) {
      if StatusKey !in message {
        return span, [], Some(KeyError(StatusKey));
      }
      raised := SetStatusCode(span, message[StatusKey], toCanonical);
      if raised.Some? {
        return span, [], raised;
      }
    } else if messageType == StrValue(WebsocketSend) {
      var codeRaised := SetStatusCode(span, IntValue(200), toCanonical);
      if TextKey !in message {
        return span, [], Some(KeyError(TextKey));
      }
      span.SetAttribute(StatusTextKey, message[TextKey]);
    }
    if !messageType.StrValue? {
      return span, [], Some(TypeError);
    }
    span.UpdateName(AnnotatedName(spanName, messageType.s));
    span.SetAttribute(TypeKey, messageType);
    forwarded, raised := [message], None;
  }

  // ---------------------------------------------------------------------
  // What the wrappers record

  /** `wrapped_receive` completes exactly when the message has a str
      "type" and, for a websocket receive, a "text"; otherwise it raises
      the lookup's KeyError or the concatenation's TypeError. */
  lemma ReceiveRaisesExactly(spanName: string, m: Message, toCanonical: int -> CanonicalCode)
    ensures var a := ReceiveAnnotated(spanName, m, toCanonical);
      && (a.raised == None <==>
            TypeKey in m && m[TypeKey].StrValue?
            && (m[TypeKey] == StrValue(WebsocketReceive) ==> TextKey in m))
      && (TypeKey !in m ==> a.raised == Some(KeyError(TypeKey)))
      && (TypeKey in m && m[TypeKey] == StrValue(WebsocketReceive) && TextKey !in m ==>
            a.raised == Some(KeyError(TextKey)))
      && (TypeKey in m && !m[TypeKey].StrValue? ==> a.raised == Some(TypeError))
  {
  }

  /** After a completed receive the span is named `<span_name> (<type>)`
      and its "type" attribute is the message type; after a raising one it
      keeps its provisional name and has no "type" attribute. */
  lemma ReceiveRenamesAndTags(spanName: string, m: Message, toCanonical: int -> CanonicalCode)
    ensures var a := ReceiveAnnotated(spanName, m, toCanonical);
      && (a.raised == None ==>
            && a.span.name == AnnotatedName(spanName, m[TypeKey].s)
            && TypeKey in a.span.attributes && a.span.attributes[TypeKey] == m[TypeKey])
      && (a.raised.Some? ==>
            a.span.name == spanName + UnknownReceiveSuffix && TypeKey !in a.span.attributes)
  {
  }

  /** Only a websocket receive records a status: status code 200 with its
      canonical code, and the message text as `http.status_text`. The span
      carries no other attributes than "type", `http.status_code` and
      `http.status_text`. */
  lemma ReceiveStatusOnlyForWebsocket(spanName: string, m: Message, toCanonical: int -> CanonicalCode)
    ensures var a := ReceiveAnnotated(spanName, m, toCanonical);
      && (a.span.status.Some? <==> TypeKey in m && m[TypeKey] == StrValue(WebsocketReceive))
      && (a.span.status.Some? ==>
            && a.span.status.value == Status(toCanonical(200), None)
            && StatusCodeKey in a.span.attributes
            && a.span.attributes[StatusCodeKey] == IntValue(200))
      && (StatusCodeKey in a.span.attributes <==> a.span.status.Some?)
      && (StatusTextKey in a.span.attributes <==>
            TypeKey in m && m[TypeKey] == StrValue(WebsocketReceive) && TextKey in m)
      && (StatusTextKey in a.span.attributes ==> a.span.attributes[StatusTextKey] == m[TextKey])
      && a.span.attributes.Keys <= {TypeKey, StatusCodeKey, StatusTextKey}
  {
  }

  /** A websocket frame carrying text: status 200, the text, the type. */
  lemma WebsocketReceiveRecorded(spanName: string, m: Message, toCanonical: int -> CanonicalCode)
    requires TypeKey in m && m[TypeKey] == StrValue(WebsocketReceive) && TextKey in m
    ensures ReceiveAnnotated(spanName, m, toCanonical) ==
      Annotated(SpanData(AnnotatedName(spanName, WebsocketReceive),
                         map[StatusCodeKey := IntValue(200), StatusTextKey := m[TextKey],
                             TypeKey := StrValue(WebsocketReceive)],
                         Some(Status(toCanonical(200), None))),
                None)
  {
  }

  /** Any other message type with a str tag, such as "http.request":
      renamed and tagged, nothing more. */
  lemma OtherReceiveOnlyTagged(spanName: string, m: Message, toCanonical: int -> CanonicalCode)
    requires TypeKey in m && m[TypeKey].StrValue? && m[TypeKey] != StrValue(WebsocketReceive)
    ensures ReceiveAnnotated(spanName, m, toCanonical) ==
      Annotated(SpanData(AnnotatedName(spanName, m[TypeKey].s), map[TypeKey := m[TypeKey]], None), None)
  {
  }

  /** `wrapped_send` completes, and so forwards the message, exactly when
      the message has a str "type", a response start carries a "status"
      that `int()` does not reject with TypeError, and a websocket send
      carries a "text". */
  lemma SendRaisesExactly(spanName: string, m: Message, toCanonical: int -> CanonicalCode)
    ensures var a := SendAnnotated(spanName, m, toCanonical);
      && (a.raised == None <==>
            TypeKey in m && m[TypeKey].StrValue?
            && (m[TypeKey] == StrValue(HttpResponseStart) ==>
                  StatusKey in m && !ToInt(m[StatusKey]).RaisesTypeError?)
            && (m[TypeKey] == StrValue(WebsocketSend) ==> TextKey in m))
      && (TypeKey !in m ==> a.raised == Some(KeyError(TypeKey)))
      && (TypeKey in m && m[TypeKey] == StrValue(HttpResponseStart) && StatusKey !in m ==>
            a.raised == Some(KeyError(StatusKey)))
      && (TypeKey in m && m[TypeKey] == StrValue(WebsocketSend) && TextKey !in m ==>
            a.raised == Some(KeyError(TextKey)))
  {
  }

  /** After a completed send the span is named `<span_name> (<type>)` and
      tagged with the type; after a raising one it keeps its provisional
      name and has no "type" attribute. */
  lemma SendRenamesAndTags(spanName: string, m: Message, toCanonical: int -> CanonicalCode)
    ensures var a := SendAnnotated(spanName, m, toCanonical);
      && (a.raised == None ==>
            && a.span.name == AnnotatedName(spanName, m[TypeKey].s)
            && TypeKey in a.span.attributes && a.span.attributes[TypeKey] == m[TypeKey])
      && (a.raised.Some? ==>
            a.span.name == spanName + UnknownSendSuffix && TypeKey !in a.span.attributes)
  {
  }

  /** Only a response start or a websocket send records a status. A
      response start records what `set_status_code` makes of its "status";
      a websocket send records 200 and its text. */
  lemma SendStatusOnlyForStartOrWebsocket(spanName: string, m: Message, toCanonical: int -> CanonicalCode)
    ensures var a := SendAnnotated(spanName, m, toCanonical);
      && (a.span.status.Some? ==>
            TypeKey in m && (m[TypeKey] == StrValue(HttpResponseStart) || m[TypeKey] == StrValue(WebsocketSend)))
      && (TypeKey in m && m[TypeKey] == StrValue(WebsocketSend) ==>
            && a.span.status == Some(Status(toCanonical(200), None))
            && StatusCodeKey in a.span.attributes
            && a.span.attributes[StatusCodeKey] == IntValue(200)
            && (TextKey in m ==> StatusTextKey in a.span.attributes
                                 && a.span.attributes[StatusTextKey] == m[TextKey]))
      && (TypeKey in m && m[TypeKey] == StrValue(HttpResponseStart) && StatusKey in m ==>
            var recorded := StatusCodeApplied(Started(spanName + UnknownSendSuffix), m[StatusKey], toCanonical).span;
            a.span.status == recorded.status
            && (StatusCodeKey in a.span.attributes <==> StatusCodeKey in recorded.attributes)
            && (StatusCodeKey in recorded.attributes ==>
                  a.span.attributes[StatusCodeKey] == recorded.attributes[StatusCodeKey]))
      && (StatusTextKey in a.span.attributes ==> TypeKey in m && m[TypeKey] == StrValue(WebsocketSend))
      && a.span.attributes.Keys <= {TypeKey, StatusCodeKey, StatusTextKey}
  {
  }

  /** A response start with an integer status: the span records that
      status, its canonical code and the type, and the message is sent. */
  lemma ResponseStartRecorded(spanName: string, m: Message, code: int, toCanonical: int -> CanonicalCode)
    requires TypeKey in m && m[TypeKey] == StrValue(HttpResponseStart)
    requires StatusKey in m && m[StatusKey] == IntValue(code)
    ensures SendAnnotated(spanName, m, toCanonical) ==
      Annotated(SpanData(AnnotatedName(spanName, HttpResponseStart),
                         map[StatusCodeKey := IntValue(code), TypeKey := StrValue(HttpResponseStart)],
                         Some(Status(toCanonical(code), None))),
                None)
  {
  }

  /** A websocket send without "text" (a binary frame) raises KeyError,
      so the frame is never handed to the underlying `send()`. */
  lemma BinaryWebsocketSendNotForwarded(spanName: string, m: Message, toCanonical: int -> CanonicalCode)
    requires TypeKey in m && m[TypeKey] == StrValue(WebsocketSend) && TextKey !in m
    ensures SendAnnotated(spanName, m, toCanonical).raised == Some(KeyError(TextKey))
  {
  }
}
