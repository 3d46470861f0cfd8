/** The part of the tracer's span API the middleware calls:
    `set_attribute`, `set_status` and `update_name` on a live span. */
module Spans {
  import opened PythonValues

  /** OpenTelemetry's canonical status codes (StatusCanonicalCode) */
  datatype CanonicalCode =
    | Ok | Cancelled | Unknown | InvalidArgument | DeadlineExceeded
    | NotFound | AlreadyExists | PermissionDenied | ResourceExhausted
    | FailedPrecondition | Aborted | OutOfRange | Unimplemented
    | Internal | Unavailable | DataLoss | Unauthenticated

  /** `Status(canonical_code, description=None)` */
  datatype Status = Status(canonicalCode: CanonicalCode, description: Option<string>)

  /** What a span records: its name, attributes and status (None until
      `set_status` is first called). */
  datatype SpanData = SpanData(name: string, attributes: map<string, Value>, status: Option<Status>)

  /** A span as `start_as_current_span(name)` hands it out, with no
      attributes and no status yet */
  function Started(name: string): SpanData {
    SpanData(name, map[], None)
  }

  class Span {
    var name: string
    var attributes: map<string, Value>
    var status: Option<Status>

    function Data(): SpanData
      reads this
    {
      SpanData(name, attributes, status)
    }

    constructor (name: string)
      ensures Data() == Started(name)
    {
      this.name := name;
      attributes := map[];
      status := None;
    }

    /** `span.set_attribute(key, value)`: a later value for a key replaces
        the earlier one */
    method SetAttribute(key: string, value: Value)
      modifies this
      ensures name == old(name) && status == old(status)
      ensures attributes == old(attributes)[key := value]
    {
      attributes := attributes[key := value];
    }

    /** `span.set_status(status)` */
    method SetStatus(s: Status)
      modifies this
      ensures name == old(name) && attributes == old(attributes)
      ensures status == Some(s)
    {
      status := Some(s);
    }

    /** `span.update_name(name)` */
    method UpdateName(newName: string)
      modifies this
      ensures attributes == old(attributes) && status == old(status)
      ensures name == newName
    {
      name := newName;
    }
  }
}
