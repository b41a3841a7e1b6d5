/**
 * The sampling decision, case by case: a health check wins over everything, a missing
 * request id comes next, and otherwise the trace status of the request id decides.
 */
module SamplingProperties {
  import opened Http
  import opened Stream
  import opened TracingApi
  import opened HttpTracerUtility

  /** A health-check request is never traced, whatever its request id and that id's trace status. */
  lemma HealthCheckNeverTraced(info: StreamInfo, h: HeaderMap, uuidStatus: string -> UuidTraceStatus)
    requires info.healthCheck
    ensures IsTracing(info, h, uuidStatus) == Decision(HealthCheck, false)
  {
  }

  /** A request without a request id is not traceable. */
  lemma MissingRequestIdNotTraced(info: StreamInfo, h: HeaderMap, uuidStatus: string -> UuidTraceStatus)
    requires !info.healthCheck && RequestId(h).None?
    ensures IsTracing(info, h, uuidStatus) == Decision(NotTraceableRequestId, false)
  {
  }

  /** With a request id, its trace status alone decides. */
  lemma TraceStatusDecides(info: StreamInfo, h: HeaderMap, uuidStatus: string -> UuidTraceStatus)
    requires !info.healthCheck && RequestId(h).Some?
    ensures var status := uuidStatus(RequestId(h).value);
      && (status == Client ==> IsTracing(info, h, uuidStatus) == Decision(ClientForced, true))
      && (status == Forced ==> IsTracing(info, h, uuidStatus) == Decision(ServiceForced, true))
      && (status == Sampled ==> IsTracing(info, h, uuidStatus) == Decision(Sampling, true))
      && (status == NoTrace ==> IsTracing(info, h, uuidStatus) == Decision(NotTraceableRequestId, false))
  {
  }

  /** The decision depends on the request only through its health-check flag and its request id's status. */
  lemma DecisionDependsOnlyOnStatus(info1: StreamInfo, h1: HeaderMap, f1: string -> UuidTraceStatus,
                                    info2: StreamInfo, h2: HeaderMap, f2: string -> UuidTraceStatus)
    requires info1.healthCheck == info2.healthCheck
    requires RequestId(h1).Some? == RequestId(h2).Some?
    requires RequestId(h1).Some? ==> f1(RequestId(h1).value) == f2(RequestId(h2).value)
    ensures IsTracing(info1, h1, f1) == IsTracing(info2, h2, f2)
  {
  }
}
