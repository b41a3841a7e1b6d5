/**
 * What span finalisation guarantees: the tag value a reader of the span sees for each key,
 * the timing logs of the verbose annotation, and that the span is finished exactly once, last.
 */
module FinalizeProperties {
  import opened Wrappers
  import opened Decimal
  import opened Http
  import opened Stream
  import opened TracingApi
  import opened Spans
  import opened HttpTracerUtility

  /** The tag keys finalisation writes from the stream record, whatever the request. */
  predicate IsStreamTagKey(key: string) {
    key == RequestSizeTag || key == UpstreamClusterTag || key == HttpStatusCodeTag ||
    key == ResponseSizeTag || key == ResponseFlagsTag || key == ErrorTag
  }

  /** The fixed tag keys finalisation writes from the request headers. */
  predicate IsRequestTagKey(key: string) {
    key == GuidXRequestIdTag || key == HttpUrlTag || key == HttpMethodTag || key == DownstreamClusterTag ||
    key == UserAgentTag || key == HttpProtocolTag || key == GuidXClientTraceIdTag
  }

  /** The tag keys finalisation writes itself. */
  predicate IsReservedTagKey(key: string) {
    IsStreamTagKey(key) || IsRequestTagKey(key)
  }

  /** No configured custom header shares its name with a tag finalisation writes itself. */
  predicate NoReservedCustomNames(cfg: Config) {
    forall i :: 0 <= i < |cfg.requestHeadersForTags| ==> !IsReservedTagKey(cfg.requestHeadersForTags[i])
  }

  // ---- Reading tags back ----

  lemma LastValueSnoc(a: seq<Tag>, t: Tag, key: string)
    ensures LastValue(a + [t], key) == if t.0 == key then Some(t.1) else LastValue(a, key)
  {
  }

  lemma LastValueOptional(a: seq<Tag>, k: string, value: Option<string>, key: string)
    ensures LastValue(a + OptionalTag(k, value), key) == if k == key && value.Some? then value else LastValue(a, key)
  {
    if value.Some? {
      LastValueSnoc(a, (k, value.value), key);
    } else {
      assert a + OptionalTag(k, value) == a;
    }
  }

  // ---- Custom header tags ----

  /** Custom tags follow the configuration order: configuring more names appends their tags. */
  lemma {:induction false} CustomTagsAppend(h: HeaderMap, a: seq<string>, b: seq<string>)
    ensures CustomTags(h, a + b) == CustomTags(h, a) + CustomTags(h, b)
    decreases |b|
  {
    if b == [] {
      assert a + b == a;
    } else {
      var init := b[..|b| - 1];
      assert (a + b)[..|a + b| - 1] == a + init;
      assert (a + b)[|a + b| - 1] == b[|b| - 1];
      CustomTagsAppend(h, a, init);
    }
  }

  /** A custom tag (k, v) is written iff k is a configured name and the request carries header k with value v. */
  lemma {:induction false} CustomTagsMembership(h: HeaderMap, names: seq<string>, k: string, v: string)
    ensures (k, v) in CustomTags(h, names) <==> k in names && Get(h, k) == Some(v)
    decreases |names|
  {
    if names != [] {
      var init := names[..|names| - 1];
      var n := names[|names| - 1];
      assert names == init + [n];
      CustomTagsMembership(h, init, k, v);
    }
  }

  /** The reader of the span sees, for a configured name, the request's header value. */
  lemma {:induction false} CustomTagsLastValue(h: HeaderMap, names: seq<string>, key: string)
    ensures LastValue(CustomTags(h, names), key) == if key in names then Get(h, key) else None
    decreases |names|
  {
    if names != [] {
      var init := names[..|names| - 1];
      var n := names[|names| - 1];
      assert names == init + [n];
      CustomTagsLastValue(h, init, key);
      LastValueOptional(CustomTags(h, init), n, Get(h, n), key);
    }
  }

  // ---- The tags a reader of the span sees ----

  /** The stream tags and the error tag, written after `pre`, as seen by a reader. */
  lemma StreamTagsLastValue(pre: seq<Tag>, info: StreamInfo, key: string)
    ensures var t := pre + StreamTags(info) + ErrorTags(info);
      LastValue(t, key) ==
        if key == ErrorTag then (if IsErrorResponse(info) then Some(TrueValue) else LastValue(pre, key))
        else if key == ResponseFlagsTag then Some(info.responseFlagsText)
        else if key == ResponseSizeTag then Some(NatToString(info.bytesSent))
        else if key == HttpStatusCodeTag then Some(BuildResponseCode(info))
        else if key == UpstreamClusterTag then (if info.upstreamCluster.Some? then info.upstreamCluster else LastValue(pre, key))
        else if key == RequestSizeTag then Some(NatToString(info.bytesReceived))
        else LastValue(pre, key)
  {
    var a := [(RequestSizeTag, NatToString(info.bytesReceived))];
    var b := OptionalTag(UpstreamClusterTag, info.upstreamCluster);
    var c := [(HttpStatusCodeTag, BuildResponseCode(info))];
    var d := [(ResponseSizeTag, NatToString(info.bytesSent))];
    var e := [(ResponseFlagsTag, info.responseFlagsText)];
    assert StreamTags(info) == a + b + c + d + e;
    Assoc(pre, a + b + c + d, e);
    Assoc(pre, a + b + c, d);
    Assoc(pre, a + b, c);
    Assoc(pre, a, b);
    LastValueSnoc(pre, a[0], key);
    LastValueOptional(pre + a, UpstreamClusterTag, info.upstreamCluster, key);
    LastValueSnoc(pre + a + b, c[0], key);
    LastValueSnoc(pre + a + b + c, d[0], key);
    LastValueSnoc(pre + a + b + c + d, e[0], key);
    var s := pre + StreamTags(info);
    if IsErrorResponse(info) {
      LastValueSnoc(s, (ErrorTag, TrueValue), key);
    } else {
      assert s + ErrorTags(info) == s;
    }
  }

  /** Without request headers no request-derived tag is written: every other key reads as absent. */
  lemma NoRequestTagsWithoutHeaders(info: StreamInfo, cfg: Config, key: string)
    requires !IsStreamTagKey(key)
    ensures LastValue(FinalizeTags(None, info, cfg), key) == None
  {
    StreamTagsLastValue([], info, key);
    assert RequestTags(None, info, cfg) == [];
  }

  /**
   * The stream tags as a reader sees them. Each is present for every request except the
   * upstream cluster, present iff a host was selected, and the error tag, present iff the
   * response is an error.
   */
  lemma StreamTagValues(requestHeaders: Option<HeaderMap>, info: StreamInfo, cfg: Config)
    requires requestHeaders.Some? ==> FinalizableHeaders(requestHeaders.value)
    requires NoReservedCustomNames(cfg)
    ensures var t := FinalizeTags(requestHeaders, info, cfg);
      && LastValue(t, RequestSizeTag) == Some(NatToString(info.bytesReceived))
      && LastValue(t, UpstreamClusterTag) == info.upstreamCluster
      && LastValue(t, HttpStatusCodeTag) == Some(BuildResponseCode(info))
      && LastValue(t, ResponseSizeTag) == Some(NatToString(info.bytesSent))
      && LastValue(t, ResponseFlagsTag) == Some(info.responseFlagsText)
      && LastValue(t, ErrorTag) == (if IsErrorResponse(info) then Some(TrueValue) else None)
  {
    var pre := RequestTags(requestHeaders, info, cfg);
    forall key | key == UpstreamClusterTag || key == ErrorTag
      ensures LastValue(pre, key) == None
    {
      match requestHeaders
      case None =>
      case Some(h) =>
        var names := cfg.requestHeadersForTags;
        LastValueAppend(HeaderTags(h, info), CustomTags(h, names), key);
        CustomTagsLastValue(h, names, key);
        HeaderTagsLastValue(h, info, key);
    }
    StreamTagsLastValue(pre, info, RequestSizeTag);
    StreamTagsLastValue(pre, info, UpstreamClusterTag);
    StreamTagsLastValue(pre, info, HttpStatusCodeTag);
    StreamTagsLastValue(pre, info, ResponseSizeTag);
    StreamTagsLastValue(pre, info, ResponseFlagsTag);
    StreamTagsLastValue(pre, info, ErrorTag);
  }

  /** The fixed request tags as a reader sees them; keys outside them read as absent. */
  lemma HeaderTagsLastValue(h: HeaderMap, info: StreamInfo, key: string)
    requires FinalizableHeaders(h)
    ensures LastValue(HeaderTags(h, info), key) ==
      if key == GuidXClientTraceIdTag then ClientTraceId(h)
      else if key == HttpProtocolTag then Some(info.protocolText)
      else if key == UserAgentTag then Some(ValueOrDefault(UserAgent(h), "-"))
      else if key == DownstreamClusterTag then Some(ValueOrDefault(EnvoyDownstreamServiceCluster(h), "-"))
      else if key == HttpMethodTag then Method(h)
      else if key == HttpUrlTag then Some(BuildUrl(h))
      else if key == GuidXRequestIdTag then RequestId(h)
      else None
  {
    var a := OptionalTag(GuidXRequestIdTag, RequestId(h));
    var b := (HttpUrlTag, BuildUrl(h));
    var c := (HttpMethodTag, Method(h).value);
    var d := (DownstreamClusterTag, ValueOrDefault(EnvoyDownstreamServiceCluster(h), "-"));
    var e := (UserAgentTag, ValueOrDefault(UserAgent(h), "-"));
    var f := (HttpProtocolTag, info.protocolText);
    LastValueOptional([], GuidXRequestIdTag, RequestId(h), key);
    assert [] + a == a;
    LastValueSnoc(a, b, key);
    LastValueSnoc(a + [b], c, key);
    LastValueSnoc(a + [b] + [c], d, key);
    LastValueSnoc(a + [b] + [c] + [d], e, key);
    LastValueSnoc(a + [b] + [c] + [d] + [e], f, key);
    LastValueOptional(a + [b] + [c] + [d] + [e] + [f], GuidXClientTraceIdTag, ClientTraceId(h), key);
  }

  /** Past the stream tags, a reader sees a configured header's value, or else the fixed request tag. */
  lemma RequestTagLastValue(h: HeaderMap, info: StreamInfo, cfg: Config, key: string)
    requires FinalizableHeaders(h)
    requires NoReservedCustomNames(cfg)
    requires !IsStreamTagKey(key)
    ensures LastValue(FinalizeTags(Some(h), info, cfg), key) ==
      if key in cfg.requestHeadersForTags then Get(h, key) else LastValue(HeaderTags(h, info), key)
  {
    var names := cfg.requestHeadersForTags;
    var ht := HeaderTags(h, info);
    var ct := CustomTags(h, names);
    assert RequestTags(Some(h), info, cfg) == ht + ct;
    StreamTagsLastValue(ht + ct, info, key);
    assert LastValue(FinalizeTags(Some(h), info, cfg), key) == LastValue(ht + ct, key);
    LastValueAppend(ht, ct, key);
    CustomTagsLastValue(h, names, key);
    if key in names {
      ReservedNotConfigured(cfg, key);
      HeaderTagsLastValue(h, info, key);
    }
  }

  /**
   * With request headers, a reader sees each fixed request tag with its value or its "-"
   * default, and the request and client trace ids iff the request carries them.
   */
  lemma RequestTagValues(h: HeaderMap, info: StreamInfo, cfg: Config)
    requires FinalizableHeaders(h)
    requires NoReservedCustomNames(cfg)
    ensures var t := FinalizeTags(Some(h), info, cfg);
      && LastValue(t, GuidXRequestIdTag) == RequestId(h)
      && LastValue(t, HttpUrlTag) == Some(BuildUrl(h))
      && LastValue(t, HttpMethodTag) == Method(h)
      && LastValue(t, DownstreamClusterTag) == Some(ValueOrDefault(EnvoyDownstreamServiceCluster(h), "-"))
      && LastValue(t, UserAgentTag) == Some(ValueOrDefault(UserAgent(h), "-"))
      && LastValue(t, HttpProtocolTag) == Some(info.protocolText)
      && LastValue(t, GuidXClientTraceIdTag) == ClientTraceId(h)
  {
    FixedRequestTagValue(h, info, cfg, GuidXRequestIdTag);
    FixedRequestTagValue(h, info, cfg, HttpUrlTag);
    FixedRequestTagValue(h, info, cfg, HttpMethodTag);
    FixedRequestTagValue(h, info, cfg, DownstreamClusterTag);
    FixedRequestTagValue(h, info, cfg, UserAgentTag);
    FixedRequestTagValue(h, info, cfg, HttpProtocolTag);
    FixedRequestTagValue(h, info, cfg, GuidXClientTraceIdTag);
    HeaderTagValues(h, info);
  }

  lemma HeaderTagValues(h: HeaderMap, info: StreamInfo)
    requires FinalizableHeaders(h)
    ensures var t := HeaderTags(h, info);
      && LastValue(t, GuidXRequestIdTag) == RequestId(h)
      && LastValue(t, HttpUrlTag) == Some(BuildUrl(h))
      && LastValue(t, HttpMethodTag) == Method(h)
      && LastValue(t, DownstreamClusterTag) == Some(ValueOrDefault(EnvoyDownstreamServiceCluster(h), "-"))
      && LastValue(t, UserAgentTag) == Some(ValueOrDefault(UserAgent(h), "-"))
      && LastValue(t, HttpProtocolTag) == Some(info.protocolText)
      && LastValue(t, GuidXClientTraceIdTag) == ClientTraceId(h)
  {
    HeaderTagsLastValue(h, info, GuidXRequestIdTag);
    HeaderTagsLastValue(h, info, HttpUrlTag);
    HeaderTagsLastValue(h, info, HttpMethodTag);
    HeaderTagsLastValue(h, info, DownstreamClusterTag);
    HeaderTagsLastValue(h, info, UserAgentTag);
    HeaderTagsLastValue(h, info, HttpProtocolTag);
    HeaderTagsLastValue(h, info, GuidXClientTraceIdTag);
  }

  lemma FixedRequestTagValue(h: HeaderMap, info: StreamInfo, cfg: Config, key: string)
    requires FinalizableHeaders(h)
    requires NoReservedCustomNames(cfg)
    requires IsRequestTagKey(key)
    ensures LastValue(FinalizeTags(Some(h), info, cfg), key) == LastValue(HeaderTags(h, info), key)
  {
    ReservedNotConfigured(cfg, key);
    RequestTagLastValue(h, info, cfg, key);
  }

  /**
   * With request headers, a reader sees every configured custom header the request carries,
   * and any key that is neither configured nor written by finalisation itself reads as absent.
   */
  lemma CustomTagValues(h: HeaderMap, info: StreamInfo, cfg: Config, key: string)
    requires FinalizableHeaders(h)
    requires NoReservedCustomNames(cfg)
    ensures key in cfg.requestHeadersForTags ==> LastValue(FinalizeTags(Some(h), info, cfg), key) == Get(h, key)
    ensures key !in cfg.requestHeadersForTags && !IsReservedTagKey(key) ==>
      LastValue(FinalizeTags(Some(h), info, cfg), key) == None
  {
    if key in cfg.requestHeadersForTags {
      ReservedNotConfigured(cfg, key);
      RequestTagLastValue(h, info, cfg, key);
    } else if !IsReservedTagKey(key) {
      RequestTagLastValue(h, info, cfg, key);
      HeaderTagsLastValue(h, info, key);
    }
  }

  lemma ReservedNotConfigured(cfg: Config, key: string)
    requires NoReservedCustomNames(cfg)
    ensures IsReservedTagKey(key) ==> key !in cfg.requestHeadersForTags
    ensures key in cfg.requestHeadersForTags ==> !IsStreamTagKey(key)
  {
  }

  /** The error tag is the very last tag written exactly when the response is an error. */
  lemma ErrorTagLast(requestHeaders: Option<HeaderMap>, info: StreamInfo, cfg: Config)
    requires requestHeaders.Some? ==> FinalizableHeaders(requestHeaders.value)
    ensures var t := FinalizeTags(requestHeaders, info, cfg);
      |t| > 0 && (t[|t| - 1] == (ErrorTag, TrueValue) <==> IsErrorResponse(info))
  {
  }

  // ---- Each key written at most once ----

  /** Every tag key occurs at most once. */
  predicate DistinctKeys(tags: seq<Tag>) {
    forall i, j :: 0 <= i < j < |tags| ==> tags[i].0 != tags[j].0
  }

  /** No key of `a` is a key of `b`. */
  predicate DisjointKeys(a: seq<Tag>, b: seq<Tag>) {
    forall i, j :: 0 <= i < |a| && 0 <= j < |b| ==> a[i].0 != b[j].0
  }

  /** No header name is configured twice. */
  predicate DistinctNames(names: seq<string>) {
    forall i, j :: 0 <= i < j < |names| ==> names[i] != names[j]
  }

  lemma DistinctKeysAppend(a: seq<Tag>, b: seq<Tag>)
    requires DistinctKeys(a) && DistinctKeys(b) && DisjointKeys(a, b)
    ensures DistinctKeys(a + b)
  {
    forall i, j | 0 <= i < j < |a + b|
      ensures (a + b)[i].0 != (a + b)[j].0
    {
      if j < |a| {
      } else if i >= |a| {
        assert (a + b)[i] == b[i - |a|] && (a + b)[j] == b[j - |a|];
      } else {
        assert (a + b)[i] == a[i] && (a + b)[j] == b[j - |a|];
      }
    }
  }

  /** The fixed request tags have distinct keys, all of them request tag keys. */
  lemma HeaderTagKeys(h: HeaderMap, info: StreamInfo)
    requires FinalizableHeaders(h)
    ensures var t := HeaderTags(h, info);
      DistinctKeys(t) && forall i :: 0 <= i < |t| ==> IsRequestTagKey(t[i].0)
  {
    var a := OptionalTag(GuidXRequestIdTag, RequestId(h));
    var b := [(HttpUrlTag, BuildUrl(h)), (HttpMethodTag, Method(h).value),
              (DownstreamClusterTag, ValueOrDefault(EnvoyDownstreamServiceCluster(h), "-")),
              (UserAgentTag, ValueOrDefault(UserAgent(h), "-")), (HttpProtocolTag, info.protocolText)];
    var c := OptionalTag(GuidXClientTraceIdTag, ClientTraceId(h));
    assert HeaderTags(h, info) == a + b + c;
    DistinctKeysAppend(a, b);
    DistinctKeysAppend(a + b, c);
  }

  /** The stream and error tags have distinct keys, all of them stream tag keys. */
  lemma StreamTagKeys(info: StreamInfo)
    ensures var t := StreamTags(info) + ErrorTags(info);
      DistinctKeys(t) && forall i :: 0 <= i < |t| ==> IsStreamTagKey(t[i].0)
  {
    var a := [(RequestSizeTag, NatToString(info.bytesReceived))];
    var b := OptionalTag(UpstreamClusterTag, info.upstreamCluster);
    var c := [(HttpStatusCodeTag, BuildResponseCode(info)), (ResponseSizeTag, NatToString(info.bytesSent)),
              (ResponseFlagsTag, info.responseFlagsText)];
    var e := ErrorTags(info);
    assert StreamTags(info) == a + b + c;
    DistinctKeysAppend(a, b);
    DistinctKeysAppend(a + b, c);
    DistinctKeysAppend(a + b + c, e);
  }

  /** With distinct configured names, the custom tags have distinct keys, each a configured name. */
  lemma {:induction false} CustomTagKeys(h: HeaderMap, names: seq<string>)
    requires DistinctNames(names)
    ensures var t := CustomTags(h, names);
      DistinctKeys(t) && forall i :: 0 <= i < |t| ==> t[i].0 in names
    decreases |names|
  {
    if names != [] {
      var init := names[..|names| - 1];
      var n := names[|names| - 1];
      assert names == init + [n];
      CustomTagKeys(h, init);
      var t := CustomTags(h, init);
      var o := OptionalTag(n, Get(h, n));
      assert n !in init;
      DistinctKeysAppend(t, o);
    }
  }

  /**
   * With distinct configured names, none of them a key finalisation writes itself,
   * finalisation writes each tag key at most once; every key it writes is one of its own
   * or a configured name.
   */
  lemma FinalizeTagKeysDistinct(requestHeaders: Option<HeaderMap>, info: StreamInfo, cfg: Config)
    requires requestHeaders.Some? ==> FinalizableHeaders(requestHeaders.value)
    requires NoReservedCustomNames(cfg)
    requires DistinctNames(cfg.requestHeadersForTags)
    ensures var t := FinalizeTags(requestHeaders, info, cfg);
      && DistinctKeys(t)
      && forall i :: 0 <= i < |t| ==> IsReservedTagKey(t[i].0) || t[i].0 in cfg.requestHeadersForTags
  {
    var r := RequestTags(requestHeaders, info, cfg);
    var s := StreamTags(info) + ErrorTags(info);
    StreamTagKeys(info);
    assert FinalizeTags(requestHeaders, info, cfg) == r + s;
    if requestHeaders.Some? {
      var h := requestHeaders.value;
      var names := cfg.requestHeadersForTags;
      var ht, ct := HeaderTags(h, info), CustomTags(h, names);
      HeaderTagKeys(h, info);
      CustomTagKeys(h, names);
      forall j | 0 <= j < |ct|
        ensures !IsReservedTagKey(ct[j].0)
      {
        ReservedNotConfigured(cfg, ct[j].0);
      }
      DistinctKeysAppend(ht, ct);
      DistinctKeysAppend(r, s);
    } else {
      assert r + s == s;
    }
  }

  // ---- The call journal ----

  /** The journal of finalisation holds exactly the tag writes and the log writes it specifies. */
  lemma FinalizeOpsWrites(requestHeaders: Option<HeaderMap>, info: StreamInfo, cfg: Config)
    requires requestHeaders.Some? ==> FinalizableHeaders(requestHeaders.value)
    ensures TagWrites(FinalizeOps(requestHeaders, info, cfg)) == FinalizeTags(requestHeaders, info, cfg)
    ensures LogWrites(FinalizeOps(requestHeaders, info, cfg)) == FinalizeLogs(info, cfg)
  {
    var r := RequestTags(requestHeaders, info, cfg);
    var s := StreamTags(info);
    var l := FinalizeLogs(info, cfg);
    var e := ErrorTags(info);
    var a := TagOps(r);
    var b := TagOps(s);
    var c := LogOps(l);
    var d := TagOps(e);
    TagOpsWrites(r);
    TagOpsWrites(s);
    LogOpsWrites(l);
    TagOpsWrites(e);
    TagWritesAppend(a, b);
    TagWritesAppend(a + b, c);
    TagWritesAppend(a + b + c, d);
    TagWritesAppend(a + b + c + d, [Finish]);
    LogWritesAppend(a, b);
    LogWritesAppend(a + b, c);
    LogWritesAppend(a + b + c, d);
    LogWritesAppend(a + b + c + d, [Finish]);
    assert [Finish][..0] == [];
    assert TagWrites([Finish]) == [];
    assert LogWrites([Finish]) == [];
  }

  /** A span that was not finished before finalisation is finished exactly once, by its last call. */
  lemma FinishedOnceLast(history0: seq<SpanOp>, requestHeaders: Option<HeaderMap>, info: StreamInfo, cfg: Config)
    requires requestHeaders.Some? ==> FinalizableHeaders(requestHeaders.value)
    requires Finish !in history0
    ensures var h := history0 + FinalizeOps(requestHeaders, info, cfg);
      forall i :: 0 <= i < |h| ==> (h[i] == Finish <==> i == |h| - 1)
  {
    var writes := TagOps(RequestTags(requestHeaders, info, cfg)) + TagOps(StreamTags(info)) +
      LogOps(FinalizeLogs(info, cfg)) + TagOps(ErrorTags(info));
    assert FinalizeOps(requestHeaders, info, cfg) == writes + [Finish];
    assert Finish !in writes;
  }

  // ---- The verbose timing logs ----

  /** Milestones listed in strictly increasing rank. */
  predicate StrictlyRanked(ms: seq<Milestone>) {
    forall i, j :: 0 <= i < j < |ms| ==> Rank(ms[i]) < Rank(ms[j])
  }

  lemma MilestoneOrderRanked()
    ensures StrictlyRanked(MilestoneOrder)
  {
  }

  lemma MilestoneLogsSnoc(info: StreamInfo, ms: seq<Milestone>, m: Milestone)
    ensures MilestoneLogs(info, ms + [m]) == MilestoneLogs(info, ms) + MilestoneLog(info, m)
  {
  }

  /** The verbose annotation visits the milestones in MilestoneOrder. */
  lemma VerboseLogsInOrder(info: StreamInfo)
    ensures VerboseLogs(info) == MilestoneLogs(info, MilestoneOrder)
  {
    var p0: seq<Milestone> := [];
    var p1 := p0 + [LastDownstreamRxByteReceived];
    var p2 := p1 + [FirstUpstreamTxByteSent];
    var p3 := p2 + [LastUpstreamTxByteSent];
    var p4 := p3 + [FirstUpstreamRxByteReceived];
    var p5 := p4 + [LastUpstreamRxByteReceived];
    var p6 := p5 + [FirstDownstreamTxByteSent];
    var p7 := p6 + [LastDownstreamTxByteSent];
    assert p7 == MilestoneOrder;
    assert MilestoneLogs(info, p0) == [];
    MilestoneLogsSnoc(info, p0, LastDownstreamRxByteReceived);
    assert MilestoneLogs(info, p1) == MilestoneLog(info, LastDownstreamRxByteReceived);
    MilestoneLogsSnoc(info, p1, FirstUpstreamTxByteSent);
    MilestoneLogsSnoc(info, p2, LastUpstreamTxByteSent);
    MilestoneLogsSnoc(info, p3, FirstUpstreamRxByteReceived);
    MilestoneLogsSnoc(info, p4, LastUpstreamRxByteReceived);
    MilestoneLogsSnoc(info, p5, FirstDownstreamTxByteSent);
    MilestoneLogsSnoc(info, p6, LastDownstreamTxByteSent);
  }

  /** The log entry milestone m contributes when it was recorded. */
  predicate LogsMilestone(info: StreamInfo, entry: LogEntry, m: Milestone) {
    Offset(info, m).Some? && entry == (info.startTime + Offset(info, m).value, EventName(m))
  }

  /** Every entry of logs is the entry of a recorded milestone of ms. */
  ghost predicate OnlyMilestoneLogs(info: StreamInfo, logs: seq<LogEntry>, ms: seq<Milestone>) {
    forall i :: 0 <= i < |logs| ==> exists m :: m in ms && LogsMilestone(info, logs[i], m)
  }

  /** Every log written for the milestones ms is the entry of a recorded milestone of ms. */
  lemma {:induction false} MilestoneLogsSound(info: StreamInfo, ms: seq<Milestone>)
    ensures OnlyMilestoneLogs(info, MilestoneLogs(info, ms), ms)
    decreases |ms|
  {
    if ms != [] {
      var init := ms[..|ms| - 1];
      var last := ms[|ms| - 1];
      MilestoneLogsSound(info, init);
      var prev := MilestoneLogs(info, init);
      var logs := MilestoneLogs(info, ms);
      assert logs == prev + MilestoneLog(info, last);
      forall i | 0 <= i < |logs|
        ensures exists m :: m in ms && LogsMilestone(info, logs[i], m)
      {
        if i >= |prev| {
          assert LogsMilestone(info, logs[i], last);
          assert last in ms;
        } else {
          var m :| m in init && LogsMilestone(info, prev[i], m);
          assert m in ms;
        }
      }
      assert OnlyMilestoneLogs(info, logs, ms);
    } else {
      assert MilestoneLogs(info, ms) == [];
    }
  }

  /** Every recorded milestone of ms has its entry in logs. */
  ghost predicate AllMilestonesLogged(info: StreamInfo, logs: seq<LogEntry>, ms: seq<Milestone>) {
    forall m :: m in ms && Offset(info, m).Some? ==> exists i :: 0 <= i < |logs| && LogsMilestone(info, logs[i], m)
  }

  /** Every recorded milestone of ms gets its log entry. */
  lemma {:induction false} MilestoneLogsComplete(info: StreamInfo, ms: seq<Milestone>)
    ensures AllMilestonesLogged(info, MilestoneLogs(info, ms), ms)
    decreases |ms|
  {
    if ms != [] {
      var init := ms[..|ms| - 1];
      var last := ms[|ms| - 1];
      assert ms == init + [last];
      MilestoneLogsComplete(info, init);
      var prev := MilestoneLogs(info, init);
      var logs := MilestoneLogs(info, ms);
      assert logs == prev + MilestoneLog(info, last);
      forall m | m in ms && Offset(info, m).Some?
        ensures exists i :: 0 <= i < |logs| && LogsMilestone(info, logs[i], m)
      {
        if m == last {
          assert LogsMilestone(info, logs[|logs| - 1], m);
        } else {
          assert m in init;
          var i :| 0 <= i < |prev| && LogsMilestone(info, prev[i], m);
          assert logs[i] == prev[i];
        }
      }
      assert AllMilestonesLogged(info, logs, ms);
    }
  }

  /** Milestone events in logs appear in increasing milestone rank. */
  ghost predicate EventsInRankOrder(logs: seq<LogEntry>) {
    forall i, j, m1, m2 :: 0 <= i < j < |logs| && logs[i].1 == EventName(m1) && logs[j].1 == EventName(m2) ==>
      Rank(m1) < Rank(m2)
  }

  /** Logging milestones of strictly increasing rank writes their events in rank order. */
  lemma {:induction false} MilestoneLogsOrdered(info: StreamInfo, ms: seq<Milestone>)
    requires StrictlyRanked(ms)
    ensures EventsInRankOrder(MilestoneLogs(info, ms))
    decreases |ms|
  {
    if ms != [] {
      var init := ms[..|ms| - 1];
      var last := ms[|ms| - 1];
      assert StrictlyRanked(init);
      var prev := MilestoneLogs(info, init);
      var logs := MilestoneLogs(info, ms);
      assert logs == prev + MilestoneLog(info, last);
      forall i, j, m1, m2 | 0 <= i < j < |logs| && logs[i].1 == EventName(m1) && logs[j].1 == EventName(m2)
        ensures Rank(m1) < Rank(m2)
      {
        if j < |prev| {
          MilestoneLogsOrdered(info, init);
          assert prev[i].1 == EventName(m1) && prev[j].1 == EventName(m2);
        } else {
          EventNameInjective(m2, last);
          EarlierEventRankedBelow(info, init, last, i, m1);
        }
      }
      assert EventsInRankOrder(logs);
    }
  }

  lemma EarlierEventRankedBelow(info: StreamInfo, ms: seq<Milestone>, last: Milestone, i: int, m1: Milestone)
    requires forall k :: 0 <= k < |ms| ==> Rank(ms[k]) < Rank(last)
    requires 0 <= i < |MilestoneLogs(info, ms)| && MilestoneLogs(info, ms)[i].1 == EventName(m1)
    ensures Rank(m1) < Rank(last)
  {
  }

  /** Logging the milestones ms writes the event of a milestone of ms exactly when it was recorded. */
  lemma MilestoneLogsRecorded(info: StreamInfo, ms: seq<Milestone>, m: Milestone)
    requires m in ms
    ensures (exists i :: 0 <= i < |MilestoneLogs(info, ms)| && MilestoneLogs(info, ms)[i].1 == EventName(m)) <==>
      Offset(info, m).Some?
  {
    var logs := MilestoneLogs(info, ms);
    if Offset(info, m).Some? {
      MilestoneLogsComplete(info, ms);
      var i :| 0 <= i < |logs| && LogsMilestone(info, logs[i], m);
      assert logs[i].1 == EventName(m);
      assert exists j :: 0 <= j < |MilestoneLogs(info, ms)| && MilestoneLogs(info, ms)[j].1 == EventName(m);
    } else if i :| 0 <= i < |logs| && logs[i].1 == EventName(m) {
      MilestoneLogsSound(info, ms);
      var m' :| m' in ms && LogsMilestone(info, logs[i], m');
      EventNameInjective(m, m');
    }
  }

  /** The verbose annotation logs a milestone's event exactly when the milestone was recorded. */
  lemma VerboseLogsExactlyRecorded(info: StreamInfo, m: Milestone)
    ensures (exists i :: 0 <= i < |VerboseLogs(info)| && VerboseLogs(info)[i].1 == EventName(m)) <==> Offset(info, m).Some?
  {
    VerboseLogsInOrder(info);
    assert MilestoneOrder[Rank(m)] == m;
    MilestoneLogsRecorded(info, MilestoneOrder, m);
  }

  /**
   * Each verbose log is the event of a recorded milestone, at the start time plus that
   * milestone's offset, and the logs follow the fixed milestone order.
   */
  lemma VerboseLogsTimedInOrder(info: StreamInfo)
    ensures OnlyMilestoneLogs(info, VerboseLogs(info), MilestoneOrder)
    ensures EventsInRankOrder(VerboseLogs(info))
  {
    VerboseLogsInOrder(info);
    MilestoneOrderRanked();
    MilestoneLogsSound(info, MilestoneOrder);
    MilestoneLogsOrdered(info, MilestoneOrder);
  }

  /** Without verbose annotation finalisation writes no log. */
  lemma QuietFinalizationLogsNothing(info: StreamInfo, cfg: Config)
    requires !cfg.verbose
    ensures FinalizeLogs(info, cfg) == []
  {
  }

  // ---- Scenarios ----

  /** A verbose request that recorded three of the seven milestones gets exactly those three logs, in order. */
  lemma VerboseThreeMilestones(info: StreamInfo, cfg: Config, a: int, b: int, c: int)
    requires cfg.verbose
    requires info.lastDownstreamRxByteReceived == Some(a) && info.firstUpstreamTxByteSent == Some(b)
    requires info.lastUpstreamTxByteSent.None? && info.firstUpstreamRxByteReceived.None?
    requires info.lastUpstreamRxByteReceived.None? && info.firstDownstreamTxByteSent.None?
    requires info.lastDownstreamTxByteSent == Some(c)
    ensures FinalizeLogs(info, cfg) == [
      (info.startTime + a, "last_downstream_rx_byte_received"),
      (info.startTime + b, "first_upstream_tx_byte_sent"),
      (info.startTime + c, "last_downstream_tx_byte_sent")]
  {
  }

  /** A request answered 503 without verbose annotation: error tag "true", status "503", no logs. */
  lemma QuietServerError(requestHeaders: Option<HeaderMap>, info: StreamInfo, cfg: Config)
    requires requestHeaders.Some? ==> FinalizableHeaders(requestHeaders.value)
    requires NoReservedCustomNames(cfg)
    requires info.responseCode == Some(503) && !cfg.verbose
    ensures LastValue(FinalizeTags(requestHeaders, info, cfg), ErrorTag) == Some("true")
    ensures LastValue(FinalizeTags(requestHeaders, info, cfg), HttpStatusCodeTag) == Some("503")
    ensures FinalizeOps(requestHeaders, info, cfg)[|FinalizeOps(requestHeaders, info, cfg)| - 1] == Finish
    ensures FinalizeLogs(info, cfg) == []
  {
    StreamTagValues(requestHeaders, info, cfg);
    assert DigitChar(5) == '5' && DigitChar(0) == '0' && DigitChar(3) == '3';
    assert NatToString(503) == NatToString(50) + [DigitChar(3)];
    assert NatToString(50) == NatToString(5) + [DigitChar(0)];
    assert BuildResponseCode(info) == "503";
  }

  /** A 200-character path contributes only its first 128 characters to the url tag. */
  lemma LongPathTruncated(h: HeaderMap)
    requires HasPathSource(h) && |PathSource(h)| == 200
    ensures |BuildUrl(h)| == |UrlPrefix(h)| + 128
    ensures BuildUrl(h) == UrlPrefix(h) + PathSource(h)[..128]
  {
  }
}
