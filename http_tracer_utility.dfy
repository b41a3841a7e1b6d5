/**
 * The tracing policy of the HTTP connection manager: the sampling decision, the
 * helpers that render tag values, and the finalisation of a span (tags, verbose
 * timing logs, finish). The pure functions named *Tags, *Logs and FinalizeOps
 * specify exactly which calls the two span-mutating methods make, in order.
 */
module HttpTracerUtility {
  import opened Wrappers
  import opened Decimal
  import opened Http
  import opened Stream
  import opened TracingApi
  import opened Spans

  /** The canonical name of an operation. */
  function ToString(op: OperationName): (r: string)
    ensures op == Ingress <==> r == IngressOperation
    ensures op == Egress <==> r == EgressOperation
  {
    match op
    case Ingress => IngressOperation
    case Egress => EgressOperation
  }

  /** The decision for a request id's trace status, once the request id is known to exist. */
  function StatusDecision(status: UuidTraceStatus): (d: Decision)
    ensures d.traced <==> status != NoTrace
    ensures d.traced <==> d.reason in {ClientForced, ServiceForced, Sampling}
    ensures d.reason != HealthCheck
  {
    match status
    case Client => Decision(ClientForced, true)
    case Forced => Decision(ServiceForced, true)
    case Sampled => Decision(Sampling, true)
    case NoTrace => Decision(NotTraceableRequestId, false)
  }

  /**
   * Whether to trace a request. `uuidStatus` stands for the decoding of the trace
   * status embedded in the request id.
   */
  function IsTracing(info: StreamInfo, h: HeaderMap, uuidStatus: string -> UuidTraceStatus): (d: Decision)
    ensures d.traced <==> d.reason in {ClientForced, ServiceForced, Sampling}
    ensures d.traced <==> !info.healthCheck && RequestId(h).Some? && uuidStatus(RequestId(h).value) != NoTrace
    ensures d.reason == HealthCheck <==> info.healthCheck
  {
    if info.healthCheck then Decision(HealthCheck, false)
    else if RequestId(h).None? then Decision(NotTraceableRequestId, false)
    else StatusDecision(uuidStatus(RequestId(h).value))
  }

  /**
   * The status-code value: a decimal numeral that reads back as the recorded code,
   * and "0" when there is none.
   */
  function BuildResponseCode(info: StreamInfo): (r: string)
    ensures IsDecimal(r)
    ensures info.responseCode.None? ==> r == "0"
    ensures info.responseCode.Some? ==> DecimalValue(r) == info.responseCode.value
    ensures r == "0" <==> info.responseCode.None? || info.responseCode.value == 0
  {
    match info.responseCode
    case None => "0"
    case Some(code) =>
      DecimalRoundTrip(code);
      NatToString(code)
  }

  /** The status-code value has no leading zero, unless it is "0" itself. */
  lemma BuildResponseCodeCanonical(info: StreamInfo)
    ensures IsCanonicalDecimal(BuildResponseCode(info))
  {
  }

  /**
   * The status-code value of a recorded code is the one numeral without a leading zero
   * that denotes the code.
   */
  lemma BuildResponseCodeUnique(info: StreamInfo, s: string)
    requires info.responseCode.Some?
    requires IsCanonicalDecimal(s) && DecimalValue(s) == info.responseCode.value
    ensures BuildResponseCode(info) == s
  {
    CanonicalDecimal(s);
  }

  /** A header's value, or the default when the header is absent. */
  function ValueOrDefault(header: Option<string>, default: string): (r: string)
    ensures header.Some? ==> r == header.value
    ensures header.None? ==> r == default
  {
    match header
    case Some(v) => v
    case None => default
  }

  const MaxPathLength: nat := 128

  function Min(a: nat, b: nat): nat {
    if a < b then a else b
  }

  /** The first 128 characters of a path, with no marker added. */
  function TruncatePath(path: string): (r: string)
    ensures |r| == Min(|path|, MaxPathLength)
    ensures r == path[..|r|]
  {
    if |path| > MaxPathLength then path[..MaxPathLength] else path
  }

  /** A request the url can be built for: it has an original path or a path. */
  predicate HasPathSource(h: HeaderMap) {
    EnvoyOriginalPath(h).Some? || Path(h).Some?
  }

  /** The path the url reports: the original path when the proxy recorded one, else the path. */
  function PathSource(h: HeaderMap): string
    requires HasPathSource(h)
  {
    if EnvoyOriginalPath(h).Some? then EnvoyOriginalPath(h).value else Path(h).value
  }

  /** "scheme://host", each part empty when its header is absent. */
  function UrlPrefix(h: HeaderMap): string {
    ValueOrDefault(ForwardedProto(h), "") + "://" + ValueOrDefault(Host(h), "")
  }

  /**
   * The url tag: "scheme://host" followed by the first min(128, |path|) characters of
   * the path source, and nothing else.
   */
  function BuildUrl(h: HeaderMap): (url: string)
    requires HasPathSource(h)
    ensures |url| == |UrlPrefix(h)| + Min(|PathSource(h)|, MaxPathLength)
    ensures url[..|UrlPrefix(h)|] == UrlPrefix(h)
    ensures url[|UrlPrefix(h)|..] == PathSource(h)[..|url| - |UrlPrefix(h)|]
  {
    UrlPrefix(h) + TruncatePath(PathSource(h))
  }

  // ---- The tag and log writes that finalisation performs ----

  /** Request headers finalisation can read: a method, and a path to build the url from. */
  predicate FinalizableHeaders(h: HeaderMap) {
    Method(h).Some? && HasPathSource(h)
  }

  /** A tag written only when its value exists. */
  function OptionalTag(key: string, value: Option<string>): seq<Tag> {
    match value
    case Some(v) => [(key, v)]
    case None => []
  }

  /** One tag per configured header that the request carries, keyed by the header name, in configuration order. */
  function CustomTags(h: HeaderMap, names: seq<string>): seq<Tag>
    decreases |names|
  {
    if names == [] then []
    else CustomTags(h, names[..|names| - 1]) + OptionalTag(names[|names| - 1], Get(h, names[|names| - 1]))
  }

  /** The fixed request tags written before the client trace id. */
  function HeaderTags(h: HeaderMap, info: StreamInfo): seq<Tag>
    requires FinalizableHeaders(h)
  {
    OptionalTag(GuidXRequestIdTag, RequestId(h)) +
    [(HttpUrlTag, BuildUrl(h))] +
    [(HttpMethodTag, Method(h).value)] +
    [(DownstreamClusterTag, ValueOrDefault(EnvoyDownstreamServiceCluster(h), "-"))] +
    [(UserAgentTag, ValueOrDefault(UserAgent(h), "-"))] +
    [(HttpProtocolTag, info.protocolText)] +
    OptionalTag(GuidXClientTraceIdTag, ClientTraceId(h))
  }

  /** The tags derived from the request headers, when they are available. */
  function RequestTags(requestHeaders: Option<HeaderMap>, info: StreamInfo, cfg: Config): seq<Tag>
    requires requestHeaders.Some? ==> FinalizableHeaders(requestHeaders.value)
  {
    match requestHeaders
    case None => []
    case Some(h) => HeaderTags(h, info) + CustomTags(h, cfg.requestHeadersForTags)
  }

  /** The tags written for every request. */
  function StreamTags(info: StreamInfo): seq<Tag> {
    [(RequestSizeTag, NatToString(info.bytesReceived))] +
    OptionalTag(UpstreamClusterTag, info.upstreamCluster) +
    [(HttpStatusCodeTag, BuildResponseCode(info))] +
    [(ResponseSizeTag, NatToString(info.bytesSent))] +
    [(ResponseFlagsTag, info.responseFlagsText)]
  }

  /** The response counts as an error: no response code, or a 5xx one. */
  predicate IsErrorResponse(info: StreamInfo) {
    info.responseCode.None? || Is5xx(info.responseCode.value)
  }

  function ErrorTags(info: StreamInfo): seq<Tag> {
    if IsErrorResponse(info) then [(ErrorTag, TrueValue)] else []
  }

  /** All tag writes of finalisation, in order. */
  function FinalizeTags(requestHeaders: Option<HeaderMap>, info: StreamInfo, cfg: Config): seq<Tag>
    requires requestHeaders.Some? ==> FinalizableHeaders(requestHeaders.value)
  {
    RequestTags(requestHeaders, info, cfg) + StreamTags(info) + ErrorTags(info)
  }

  /** The log entry of one milestone, if it was recorded. */
  function MilestoneLog(info: StreamInfo, m: Milestone): seq<LogEntry> {
    match Offset(info, m)
    case Some(offset) => [(info.startTime + offset, EventName(m))]
    case None => []
  }

  function MilestoneLogs(info: StreamInfo, ms: seq<Milestone>): seq<LogEntry>
    decreases |ms|
  {
    if ms == [] then [] else MilestoneLogs(info, ms[..|ms| - 1]) + MilestoneLog(info, ms[|ms| - 1])
  }

  /** The verbose timing logs: each recorded milestone, in the fixed milestone order. */
  function VerboseLogs(info: StreamInfo): seq<LogEntry> {
    MilestoneLog(info, LastDownstreamRxByteReceived) + MilestoneLog(info, FirstUpstreamTxByteSent) +
    MilestoneLog(info, LastUpstreamTxByteSent) + MilestoneLog(info, FirstUpstreamRxByteReceived) +
    MilestoneLog(info, LastUpstreamRxByteReceived) + MilestoneLog(info, FirstDownstreamTxByteSent) +
    MilestoneLog(info, LastDownstreamTxByteSent)
  }

  /** All log writes of finalisation. */
  function FinalizeLogs(info: StreamInfo, cfg: Config): seq<LogEntry> {
    if cfg.verbose then VerboseLogs(info) else []
  }

  /** Every call finalisation makes on the span, in order. */
  function FinalizeOps(requestHeaders: Option<HeaderMap>, info: StreamInfo, cfg: Config): seq<SpanOp>
    requires requestHeaders.Some? ==> FinalizableHeaders(requestHeaders.value)
  {
    TagOps(RequestTags(requestHeaders, info, cfg)) +
    TagOps(StreamTags(info)) +
    LogOps(FinalizeLogs(info, cfg)) +
    TagOps(ErrorTags(info)) +
    [Finish]
  }

  // ---- The span-mutating operations ----

  /** One step of the verbose annotation: log milestone m at startTime + offset if it was recorded. */
  method LogMilestone(span: Span, info: StreamInfo, m: Milestone)
    requires span.Valid() && !span.finished
    modifies span
    ensures span.Valid() && !span.finished
    ensures span.tags == old(span.tags)
    ensures span.logs == old(span.logs) + MilestoneLog(info, m)
    ensures span.history == old(span.history) + LogOps(MilestoneLog(info, m))
  {
    var offset := Offset(info, m);
    if offset.Some? {
      span.Log(info.startTime + offset.value, EventName(m));
    }
  }

  /** Log the recorded milestones of the stream, in the fixed milestone order. */
  method AnnotateVerbose(span: Span, info: StreamInfo)
    requires span.Valid() && !span.finished
    modifies span
    ensures span.Valid() && !span.finished
    ensures span.tags == old(span.tags)
    ensures span.logs == old(span.logs) + VerboseLogs(info)
    ensures span.history == old(span.history) + LogOps(VerboseLogs(info))
  {
    // `done` is the part of VerboseLogs written so far.
    ghost var logs0, history0 := span.logs, span.history;
    LogMilestone(span, info, LastDownstreamRxByteReceived);
    ghost var done := MilestoneLog(info, LastDownstreamRxByteReceived);
    LogMilestone(span, info, FirstUpstreamTxByteSent);
    Extend(logs0, history0, done, MilestoneLog(info, FirstUpstreamTxByteSent));
    done := done + MilestoneLog(info, FirstUpstreamTxByteSent);
    LogMilestone(span, info, LastUpstreamTxByteSent);
    Extend(logs0, history0, done, MilestoneLog(info, LastUpstreamTxByteSent));
    done := done + MilestoneLog(info, LastUpstreamTxByteSent);
    LogMilestone(span, info, FirstUpstreamRxByteReceived);
    Extend(logs0, history0, done, MilestoneLog(info, FirstUpstreamRxByteReceived));
    done := done + MilestoneLog(info, FirstUpstreamRxByteReceived);
    LogMilestone(span, info, LastUpstreamRxByteReceived);
    Extend(logs0, history0, done, MilestoneLog(info, LastUpstreamRxByteReceived));
    done := done + MilestoneLog(info, LastUpstreamRxByteReceived);
    LogMilestone(span, info, FirstDownstreamTxByteSent);
    Extend(logs0, history0, done, MilestoneLog(info, FirstDownstreamTxByteSent));
    done := done + MilestoneLog(info, FirstDownstreamTxByteSent);
    LogMilestone(span, info, LastDownstreamTxByteSent);
    Extend(logs0, history0, done, MilestoneLog(info, LastDownstreamTxByteSent));
    done := done + MilestoneLog(info, LastDownstreamTxByteSent);
  }

  lemma Extend(logs0: seq<LogEntry>, history0: seq<SpanOp>, done: seq<LogEntry>, next: seq<LogEntry>)
    ensures logs0 + done + next == logs0 + (done + next)
    ensures history0 + LogOps(done) + LogOps(next) == history0 + LogOps(done + next)
  {
  }

  lemma ExtendTag(tags0: seq<Tag>, history0: seq<SpanOp>, done: seq<Tag>, key: string, value: string)
    ensures tags0 + done + [(key, value)] == tags0 + (done + [(key, value)])
    ensures history0 + TagOps(done) + [SetTag(key, value)] == history0 + TagOps(done + [(key, value)])
  {
  }

  lemma ExtendTags(tags0: seq<Tag>, history0: seq<SpanOp>, done: seq<Tag>, next: seq<Tag>)
    ensures tags0 + done + next == tags0 + (done + next)
    ensures history0 + TagOps(done) + TagOps(next) == history0 + TagOps(done + next)
  {
  }

  /** Write a tag only when its value exists. */
  method SetOptionalTag(span: Span, key: string, value: Option<string>)
    requires span.Valid() && !span.finished
    modifies span
    ensures span.Valid() && !span.finished && span.logs == old(span.logs)
    ensures span.tags == old(span.tags) + OptionalTag(key, value)
    ensures span.history == old(span.history) + TagOps(OptionalTag(key, value))
  {
    if value.Some? {
      span.SetTag(key, value.value);
    }
  }

  /** The fixed request-derived tags of `finalizeSpan`. */
  method WriteHeaderTags(span: Span, h: HeaderMap, info: StreamInfo)
    requires span.Valid() && !span.finished
    requires FinalizableHeaders(h)
    modifies span
    ensures span.Valid() && !span.finished && span.logs == old(span.logs)
    ensures span.tags == old(span.tags) + HeaderTags(h, info)
    ensures span.history == old(span.history) + TagOps(HeaderTags(h, info))
  {
    // `done` is the part of HeaderTags written so far.
    ghost var tags0, history0 := span.tags, span.history;
    SetOptionalTag(span, GuidXRequestIdTag, RequestId(h));
    ghost var done := OptionalTag(GuidXRequestIdTag, RequestId(h));
    var url := BuildUrl(h);
    span.SetTag(HttpUrlTag, url);
    ExtendTag(tags0, history0, done, HttpUrlTag, url);
    done := done + [(HttpUrlTag, url)];
    span.SetTag(HttpMethodTag, Method(h).value);
    ExtendTag(tags0, history0, done, HttpMethodTag, Method(h).value);
    done := done + [(HttpMethodTag, Method(h).value)];
    var downstreamCluster := ValueOrDefault(EnvoyDownstreamServiceCluster(h), "-");
    span.SetTag(DownstreamClusterTag, downstreamCluster);
    ExtendTag(tags0, history0, done, DownstreamClusterTag, downstreamCluster);
    done := done + [(DownstreamClusterTag, downstreamCluster)];
    var userAgent := ValueOrDefault(UserAgent(h), "-");
    span.SetTag(UserAgentTag, userAgent);
    ExtendTag(tags0, history0, done, UserAgentTag, userAgent);
    done := done + [(UserAgentTag, userAgent)];
    span.SetTag(HttpProtocolTag, info.protocolText);
    ExtendTag(tags0, history0, done, HttpProtocolTag, info.protocolText);
    done := done + [(HttpProtocolTag, info.protocolText)];
    SetOptionalTag(span, GuidXClientTraceIdTag, ClientTraceId(h));
    ExtendTags(tags0, history0, done, OptionalTag(GuidXClientTraceIdTag, ClientTraceId(h)));
    done := done + OptionalTag(GuidXClientTraceIdTag, ClientTraceId(h));
    assert done == HeaderTags(h, info);
  }

  /** The custom header tags: one per configured header the request carries (the configured-header loop of `finalizeSpan`). */
  method WriteCustomTags(span: Span, h: HeaderMap, names: seq<string>)
    requires span.Valid() && !span.finished
    modifies span
    ensures span.Valid() && !span.finished && span.logs == old(span.logs)
    ensures span.tags == old(span.tags) + CustomTags(h, names)
    ensures span.history == old(span.history) + TagOps(CustomTags(h, names))
  {
    ghost var tags0, history0 := span.tags, span.history;
    for i := 0 to |names|
      invariant span.Valid() && !span.finished && span.logs == old(span.logs)
      invariant span.tags == tags0 + CustomTags(h, names[..i])
      invariant span.history == history0 + TagOps(CustomTags(h, names[..i]))
    {
      var entry := Get(h, names[i]);
      SetOptionalTag(span, names[i], entry);
      assert names[..i + 1][..i] == names[..i];
      assert CustomTags(h, names[..i + 1]) == CustomTags(h, names[..i]) + OptionalTag(names[i], entry);
      ExtendTags(tags0, history0, CustomTags(h, names[..i]), OptionalTag(names[i], entry));
    }
    assert names[..|names|] == names;
  }

  /** The tags `finalizeSpan` writes for every request, from the stream record. */
  method WriteStreamTags(span: Span, info: StreamInfo)
    requires span.Valid() && !span.finished
    modifies span
    ensures span.Valid() && !span.finished && span.logs == old(span.logs)
    ensures span.tags == old(span.tags) + StreamTags(info)
    ensures span.history == old(span.history) + TagOps(StreamTags(info))
  {
    ghost var tags0, history0 := span.tags, span.history;
    span.SetTag(RequestSizeTag, NatToString(info.bytesReceived));
    ghost var done := [(RequestSizeTag, NatToString(info.bytesReceived))];
    SetOptionalTag(span, UpstreamClusterTag, info.upstreamCluster);
    ExtendTags(tags0, history0, done, OptionalTag(UpstreamClusterTag, info.upstreamCluster));
    done := done + OptionalTag(UpstreamClusterTag, info.upstreamCluster);
    span.SetTag(HttpStatusCodeTag, BuildResponseCode(info));
    ExtendTag(tags0, history0, done, HttpStatusCodeTag, BuildResponseCode(info));
    done := done + [(HttpStatusCodeTag, BuildResponseCode(info))];
    span.SetTag(ResponseSizeTag, NatToString(info.bytesSent));
    ExtendTag(tags0, history0, done, ResponseSizeTag, NatToString(info.bytesSent));
    done := done + [(ResponseSizeTag, NatToString(info.bytesSent))];
    span.SetTag(ResponseFlagsTag, info.responseFlagsText);
    ExtendTag(tags0, history0, done, ResponseFlagsTag, info.responseFlagsText);
    done := done + [(ResponseFlagsTag, info.responseFlagsText)];
    assert done == StreamTags(info);
  }

  /**
   * Write the request, stream and error tags and (when verbose) the timing logs onto
   * the span, then finish it.
   */
  method FinalizeSpan(span: Span, requestHeaders: Option<HeaderMap>, info: StreamInfo, cfg: Config)
    requires span.Valid() && !span.finished
    requires requestHeaders.Some? ==> FinalizableHeaders(requestHeaders.value)
    modifies span
    ensures span.Valid() && span.finished
    ensures span.tags == old(span.tags) + FinalizeTags(requestHeaders, info, cfg)
    ensures span.logs == old(span.logs) + FinalizeLogs(info, cfg)
    ensures span.history == old(span.history) + FinalizeOps(requestHeaders, info, cfg)
  {
    ghost var tags0, history0 := span.tags, span.history;
    // Pre-response data.
    if requestHeaders.Some? {
      var h := requestHeaders.value;
      WriteHeaderTags(span, h, info);
      WriteCustomTags(span, h, cfg.requestHeadersForTags);
      ExtendTags(tags0, history0, HeaderTags(h, info), CustomTags(h, cfg.requestHeadersForTags));
    } else {
      assert tags0 + [] == tags0;
      assert history0 + [] == history0;
      assert TagOps([]) == [];
    }
    WriteStreamTags(span, info);
    ghost var history1 := span.history;
    if cfg.verbose {
      AnnotateVerbose(span, info);
    } else {
      assert history1 + [] == history1;
      assert LogOps([]) == [];
    }
    ghost var tags2, history2 := span.tags, span.history;
    if info.responseCode.None? || Is5xx(info.responseCode.value) {
      span.SetTag(ErrorTag, TrueValue);
      assert TagOps([(ErrorTag, TrueValue)]) == [SetTag(ErrorTag, TrueValue)];
    } else {
      assert tags2 + [] == tags2;
      assert history2 + [] == history2;
      assert TagOps([]) == [];
    }
    span.FinishSpan();

    ghost var requestTags, streamTags := RequestTags(requestHeaders, info, cfg), StreamTags(info);
    ghost var logs, errorTags := FinalizeLogs(info, cfg), ErrorTags(info);
    Assoc(tags0, requestTags, streamTags);
    Assoc(tags0, requestTags + streamTags, errorTags);
    ghost var a, b, c, d := TagOps(requestTags), TagOps(streamTags), LogOps(logs), TagOps(errorTags);
    Assoc(history0, a, b);
    Assoc(history0, a + b, c);
    Assoc(history0, a + b + c, d);
    Assoc(history0, a + b + c + d, [Finish]);
  }
}
