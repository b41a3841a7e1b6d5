/**
 * The slice of the HTTP layer that the tracer reads: a request header map keyed by
 * lower-case header name, the well-known header names, and the 5xx class test.
 */
module Http {
  import opened Wrappers

  /** Request headers: lower-case header name to header value. */
  type HeaderMap = map<string, string>

  /** The entry for `name`, if the request carries one. */
  function Get(h: HeaderMap, name: string): Option<string> {
    if name in h then Some(h[name]) else None
  }

  const PathHeader := ":path"
  const MethodHeader := ":method"
  const HostHeader := ":authority"
  const ForwardedProtoHeader := "x-forwarded-proto"
  const RequestIdHeader := "x-request-id"
  const ClientTraceIdHeader := "x-client-trace-id"
  const EnvoyOriginalPathHeader := "x-envoy-original-path"
  const EnvoyDownstreamServiceClusterHeader := "x-envoy-downstream-service-cluster"
  const UserAgentHeader := "user-agent"

  function Path(h: HeaderMap): Option<string> { Get(h, PathHeader) }
  function Method(h: HeaderMap): Option<string> { Get(h, MethodHeader) }
  function Host(h: HeaderMap): Option<string> { Get(h, HostHeader) }
  function ForwardedProto(h: HeaderMap): Option<string> { Get(h, ForwardedProtoHeader) }
  function RequestId(h: HeaderMap): Option<string> { Get(h, RequestIdHeader) }
  function ClientTraceId(h: HeaderMap): Option<string> { Get(h, ClientTraceIdHeader) }
  function EnvoyOriginalPath(h: HeaderMap): Option<string> { Get(h, EnvoyOriginalPathHeader) }
  function EnvoyDownstreamServiceCluster(h: HeaderMap): Option<string> { Get(h, EnvoyDownstreamServiceClusterHeader) }
  function UserAgent(h: HeaderMap): Option<string> { Get(h, UserAgentHeader) }

  /** A server-error response code. */
  predicate Is5xx(code: nat) {
    500 <= code < 600
  }
}
