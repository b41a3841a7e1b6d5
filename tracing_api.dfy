/**
 * The tracing vocabulary: the decision returned by the sampler, the trace status
 * carried by a request id, the tracer configuration, and the fixed tag and log names.
 */
module TracingApi {
  import opened Stream

  datatype Reason = HealthCheck | NotTraceableRequestId | ClientForced | ServiceForced | Sampling

  datatype Decision = Decision(reason: Reason, traced: bool)

  /** The trace status encoded in a request id (decoded outside this model). */
  datatype UuidTraceStatus = Client | Forced | Sampled | NoTrace

  datatype OperationName = Ingress | Egress

  /** Tracing configuration of one connection manager; header names are lower-case. */
  datatype Config = Config(operationName: OperationName, verbose: bool, requestHeadersForTags: seq<string>)

  /** The identity of this proxy process. */
  datatype LocalInfo = LocalInfo(nodeName: string, zoneName: string)

  const IngressOperation := "ingress"
  const EgressOperation := "egress"

  // Tag keys.
  const ComponentTag := "component"
  const NodeIdTag := "node_id"
  const ZoneTag := "zone"
  const GuidXRequestIdTag := "guid:x-request-id"
  const HttpUrlTag := "http.url"
  const HttpMethodTag := "http.method"
  const DownstreamClusterTag := "downstream_cluster"
  const UserAgentTag := "user_agent"
  const HttpProtocolTag := "http.protocol"
  const GuidXClientTraceIdTag := "guid:x-client-trace-id"
  const RequestSizeTag := "request_size"
  const UpstreamClusterTag := "upstream_cluster"
  const HttpStatusCodeTag := "http.status_code"
  const ResponseSizeTag := "response_size"
  const ResponseFlagsTag := "response_flags"
  const ErrorTag := "error"

  // Tag values.
  const ProxyValue := "proxy"
  const TrueValue := "true"

  /** The event name logged for a milestone. */
  function EventName(m: Milestone): string {
    match m
    case LastDownstreamRxByteReceived => "last_downstream_rx_byte_received"
    case FirstUpstreamTxByteSent => "first_upstream_tx_byte_sent"
    case LastUpstreamTxByteSent => "last_upstream_tx_byte_sent"
    case FirstUpstreamRxByteReceived => "first_upstream_rx_byte_received"
    case LastUpstreamRxByteReceived => "last_upstream_rx_byte_received"
    case FirstDownstreamTxByteSent => "first_downstream_tx_byte_sent"
    case LastDownstreamTxByteSent => "last_downstream_tx_byte_sent"
  }

  /** Every milestone has its own event name. */
  lemma EventNameInjective(m1: Milestone, m2: Milestone)
    ensures EventName(m1) == EventName(m2) ==> m1 == m2
  {
  }
}
