/**
 * The HTTP tracer: asks the tracing driver for a span named after the operation
 * (and, for egress, the upstream host) and stamps it with the proxy's identity.
 */
module HttpTracerImpl {
  import opened Wrappers
  import opened Http
  import opened Stream
  import opened TracingApi
  import opened Spans
  import opened HttpTracerUtility
  import opened FinalizeProperties

  /**
   * A tracing driver. Real drivers talk to a tracing backend; this one either creates
   * every span it is asked for or none, as fixed when it is constructed.
   */
  class Driver {
    const accepts: bool

    constructor (accepts: bool)
      ensures this.accepts == accepts
    {
      this.accepts := accepts;
    }

    /** A fresh, empty span with the given name and start time, or null when the driver declines. */
    method StartSpan(cfg: Config, h: HeaderMap, name: string, startTime: int, decision: Decision) returns (s: Span?)
      ensures (s != null) == accepts
      ensures s != null ==> fresh(s) && s.Valid()
      ensures s != null ==> s.name == name && s.startTime == startTime
      ensures s != null ==> s.tags == [] && s.logs == [] && !s.finished && s.history == []
    {
      if accepts {
        s := new Span(name, startTime);
      } else {
        s := null;
      }
    }
  }

  /** The identity tags every span this tracer starts carries, in the order they are written. */
  function IdentityTags(localInfo: LocalInfo): seq<Tag> {
    [(ComponentTag, ProxyValue), (NodeIdTag, localInfo.nodeName), (ZoneTag, localInfo.zoneName)]
  }

  /**
   * Finalisation never overwrites the identity tags, as long as no configured custom header
   * is named like a tag the tracer writes itself.
   */
  lemma IdentitySurvivesFinalization(localInfo: LocalInfo, requestHeaders: Option<HeaderMap>, info: StreamInfo, cfg: Config)
    requires requestHeaders.Some? ==> FinalizableHeaders(requestHeaders.value)
    requires NoReservedCustomNames(cfg)
    requires ComponentTag !in cfg.requestHeadersForTags && NodeIdTag !in cfg.requestHeadersForTags
    requires ZoneTag !in cfg.requestHeadersForTags
    ensures var t := IdentityTags(localInfo) + FinalizeTags(requestHeaders, info, cfg);
      && LastValue(t, ComponentTag) == Some(ProxyValue)
      && LastValue(t, NodeIdTag) == Some(localInfo.nodeName)
      && LastValue(t, ZoneTag) == Some(localInfo.zoneName)
  {
    var identity := IdentityTags(localInfo);
    var fin := FinalizeTags(requestHeaders, info, cfg);
    IdentityTagUntouched(requestHeaders, info, cfg, ComponentTag);
    IdentityTagUntouched(requestHeaders, info, cfg, NodeIdTag);
    IdentityTagUntouched(requestHeaders, info, cfg, ZoneTag);
    LastValueAppend(identity, fin, ComponentTag);
    LastValueAppend(identity, fin, NodeIdTag);
    LastValueAppend(identity, fin, ZoneTag);
    var a := (ComponentTag, ProxyValue);
    var b := (NodeIdTag, localInfo.nodeName);
    var c := (ZoneTag, localInfo.zoneName);
    assert identity == [a] + [b] + [c];
    assert [a] == [] + [a];
    forall key | key == ComponentTag || key == NodeIdTag || key == ZoneTag
      ensures LastValue(identity, key) == if key == ZoneTag then Some(c.1) else if key == NodeIdTag then Some(b.1) else Some(a.1)
    {
      LastValueSnoc([], a, key);
      LastValueSnoc([a], b, key);
      LastValueSnoc([a] + [b], c, key);
    }
  }

  /**
   * A span this tracer starts and then finalises carries each tag key at most once, as long
   * as the configured header names are distinct and none is named like a tag the tracer
   * writes itself.
   */
  lemma SpanTagKeysDistinct(localInfo: LocalInfo, requestHeaders: Option<HeaderMap>, info: StreamInfo, cfg: Config)
    requires requestHeaders.Some? ==> FinalizableHeaders(requestHeaders.value)
    requires NoReservedCustomNames(cfg)
    requires DistinctNames(cfg.requestHeadersForTags)
    requires ComponentTag !in cfg.requestHeadersForTags && NodeIdTag !in cfg.requestHeadersForTags
    requires ZoneTag !in cfg.requestHeadersForTags
    ensures DistinctKeys(IdentityTags(localInfo) + FinalizeTags(requestHeaders, info, cfg))
  {
    var identity := IdentityTags(localInfo);
    var fin := FinalizeTags(requestHeaders, info, cfg);
    FinalizeTagKeysDistinct(requestHeaders, info, cfg);
    DistinctKeysAppend(identity, fin);
  }

  lemma IdentityTagUntouched(requestHeaders: Option<HeaderMap>, info: StreamInfo, cfg: Config, key: string)
    requires requestHeaders.Some? ==> FinalizableHeaders(requestHeaders.value)
    requires NoReservedCustomNames(cfg)
    requires key == ComponentTag || key == NodeIdTag || key == ZoneTag
    requires key !in cfg.requestHeadersForTags
    ensures LastValue(FinalizeTags(requestHeaders, info, cfg), key) == None
  {
    assert !IsReservedTagKey(key);
    match requestHeaders
    case None => NoRequestTagsWithoutHeaders(info, cfg, key);
    case Some(h) => CustomTagValues(h, info, cfg, key);
  }

  class HttpTracer {
    const driver: Driver
    const localInfo: LocalInfo

    constructor (driver: Driver, localInfo: LocalInfo)
      ensures this.driver == driver && this.localInfo == localInfo
    {
      this.driver := driver;
      this.localInfo := localInfo;
    }

    /**
     * Starts the span of a request. It is named "ingress", or "egress <host>" from the
     * request's authority; when the driver creates it, it carries the component, node and
     * zone tags and nothing else.
     */
    method StartSpan(cfg: Config, h: HeaderMap, info: StreamInfo, decision: Decision) returns (s: Span?)
      requires cfg.operationName == Egress ==> Host(h).Some?
      ensures (s != null) == driver.accepts
      ensures s != null ==> fresh(s) && s.Valid() && !s.finished
      ensures s != null ==> s.startTime == info.startTime
      ensures s != null && cfg.operationName == Ingress ==> s.name == IngressOperation
      ensures s != null && cfg.operationName == Egress ==>
        s.name == EgressOperation + " " + Host(h).value &&
        s.name[..|EgressOperation| + 1] == "egress " && s.name[|EgressOperation| + 1..] == Host(h).value
      ensures s != null ==> s.tags == IdentityTags(localInfo) && s.logs == []
      ensures s != null ==> s.history == TagOps(IdentityTags(localInfo))
    {
      var name := ToString(cfg.operationName);
      if cfg.operationName == Egress {
        name := name + " ";
        name := name + Host(h).value;
      }
      s := driver.StartSpan(cfg, h, name, info.startTime, decision);
      if s != null {
        s.SetTag(ComponentTag, ProxyValue);
        s.SetTag(NodeIdTag, localInfo.nodeName);
        s.SetTag(ZoneTag, localInfo.zoneName);
        assert s.history == TagOps(IdentityTags(localInfo));
      }
    }
  }
}
