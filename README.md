# Envoy HTTP tracing policy, modelled in Dafny

This project models the HTTP tracing policy of Envoy's connection manager. The policy lives in
`source/common/tracing/http_tracer_impl.cc` and has three parts:

- **Sampling decision** (`HttpTracerUtility::isTracing`). A health-check flag, the presence of an
  `x-request-id` header, and the trace status carried in that id are mapped, first match wins, to a
  `Decision {reason, traced}`.
- **Span finalisation** (`HttpTracerUtility::finalizeSpan` and its helpers `buildUrl`,
  `buildResponseCode`, `valueOrDefault` and `annotateVerbose`). It writes, in a fixed order:
  - the request-derived tags;
  - the custom-header tags, in configuration order;
  - the stream tags;
  - the verbose timing logs, when verbose mode is on;
  - the `error` tag.

  Then it finishes the span.
- **Span start** (`HttpTracerImpl::startSpan` with `toString`). The span is named `"ingress"` or
  `"egress <host>"`. The driver is asked for it, and a span the driver returns gets the `component`,
  `node_id` and `zone` tags.

## Layout

| file | module | contents |
|---|---|---|
| `wrappers.dfy` | `Wrappers` | `Option` |
| `decimal.dfy` | `Decimal` | `NatToString`, the decimal rendering used for sizes and the status code. Also its inverse `DecimalValue` and the round trip. |
| `http.dfy` | `Http` | The header map as `map<string, string>`. The well-known header names and their accessors, and `Is5xx`. |
| `stream.dfy` | `Stream` | `StreamInfo`, the read-only stream record. The seven byte-transfer `Milestone`s in the order the code visits them. |
| `tracing_api.dfy` | `TracingApi` | `Reason`, `Decision`, `UuidTraceStatus`, `OperationName`, `Config`, `LocalInfo`. The fixed tag keys, tag values and event names. |
| `spans.dfy` | `Spans` | The `Span` class: a tag list, a log list and a `finished` flag, plus a ghost journal of every call. `SetTag`, `Log` and `FinishSpan` require an unfinished span. |
| `http_tracer_utility.dfy` | `HttpTracerUtility` | `ToString`, `IsTracing`, the url and response-code helpers. The specification functions `FinalizeTags`, `FinalizeLogs` and `FinalizeOps`. The imperative `AnnotateVerbose` and `FinalizeSpan`, proved against them. |
| `finalize_properties.dfy` | `FinalizeProperties` | What finalisation guarantees, as seen by a reader of the span. |
| `sampling_properties.dfy` | `SamplingProperties` | The sampling decision, case by case. |
| `http_tracer_impl.dfy` | `HttpTracerImpl` | The `Driver` stub and `HttpTracer.StartSpan`. |

### How the properties are stated

A reader of a span sees the last value written for each tag key (`Spans.LastValue`). Tag properties
are stated through `LastValue`. When the configured header names are distinct and none is named like
a tag the tracer writes itself, no key is written twice (`FinalizeTagKeysDistinct`,
`SpanTagKeysDistinct`). A backend that keeps every write then sees the same values as one that
overwrites.

The exact sequence of span calls made by `FinalizeSpan` is `FinalizeOps`, with tags and logs
interleaved. `FinalizeSpan` promises:

- its journal grows by exactly `FinalizeOps`;
- its tag list grows by `FinalizeTags`;
- its log list grows by `FinalizeLogs`.

`FinalizeOpsWrites` shows that the journal and the two lists agree.

### Configured header names that clash with tag keys

The source writes a configured custom header under its own name, after the fixed request tags and
before the stream tags. A header named like a fixed request tag, such as `http.url` or `user_agent`,
therefore overwrites that tag. A header named like a stream tag, such as `error` or
`upstream_cluster`, is overwritten by finalisation when finalisation writes that tag; when it does
not (a 200 response, no upstream host), the header's value appears under that key. The lemmas
about individual tag values assume that no configured name is one of those keys
(`NoReservedCustomNames`). `ErrorTagLast` states the `error` rule without that assumption: the very
last tag written is `("error", "true")` exactly when the response is an error.

### Milestone order

The verbose annotation starts with the last byte received from downstream. After it come first
upstream tx, last upstream tx, first upstream rx, last upstream rx, first downstream tx and last
downstream tx. This is the order of `annotateVerbose`, and the model follows it.

## Model

| member | source | states |
|---|---|---|
| HttpTracerUtility.ToString | source/common/tracing/http_tracer_impl.cc:45-54 | Ingress is named "ingress" and Egress "egress", each iff. |
| HttpTracerUtility.IsTracing | source/common/tracing/http_tracer_impl.cc:56-83 | Three facts. The request is traced iff the reason is ClientForced, ServiceForced or Sampling. It is traced iff it is no health check, carries a request id, and the id's status is not NoTrace. The reason is HealthCheck iff the request is a health check. |
| SamplingProperties.HealthCheckNeverTraced | source/common/tracing/http_tracer_impl.cc:59-61 | A health check yields {HealthCheck, false} whatever the request id and its status. |
| SamplingProperties.MissingRequestIdNotTraced | source/common/tracing/http_tracer_impl.cc:63-65 | A missing request id yields {NotTraceableRequestId, false}. |
| SamplingProperties.TraceStatusDecides | source/common/tracing/http_tracer_impl.cc:67-80 | Client gives (ClientForced, true). Forced gives (ServiceForced, true). Sampled gives (Sampling, true). NoTrace gives (NotTraceableRequestId, false). |
| SamplingProperties.DecisionDependsOnlyOnStatus | source/common/tracing/http_tracer_impl.cc:56-83 | Two requests with the same health-check flag, request-id presence and trace status get the same decision. |
| Decimal.NatToString | source/common/tracing/http_tracer_impl.cc:22 | The rendering of a number is a non-empty string of digits with no leading zero, except "0" itself. |
| Decimal.DecimalRoundTrip | source/common/tracing/http_tracer_impl.cc:22 | Reading the decimal rendering back gives the number. |
| Decimal.NatToStringInjective | source/common/tracing/http_tracer_impl.cc:22 | Distinct numbers render as distinct strings. |
| Decimal.CanonicalDecimal | source/common/tracing/http_tracer_impl.cc:22 | A numeral without a leading zero (or "0" itself) is the rendering of the number it denotes. So the rendering is the only such numeral for its number. |
| HttpTracerUtility.StatusDecision | source/common/tracing/http_tracer_impl.cc:71-80 | The request is traced iff the status is not NoTrace, iff the reason is ClientForced, ServiceForced or Sampling. The reason is never HealthCheck. |
| HttpTracerUtility.BuildResponseCode | source/common/tracing/http_tracer_impl.cc:21-23 | The status-code value is a decimal numeral. It is "0" when no code was recorded, and otherwise reads back as the code. It equals "0" iff there is no code or the code is 0. |
| HttpTracerUtility.BuildResponseCodeCanonical | source/common/tracing/http_tracer_impl.cc:21-23 | The status-code value has no leading zero, unless it is "0" itself. |
| HttpTracerUtility.BuildResponseCodeUnique | source/common/tracing/http_tracer_impl.cc:21-23 | For a recorded code, the status-code value is the one numeral without a leading zero that denotes the code, as `std::to_string` renders it. |
| HttpTracerUtility.ValueOrDefault | source/common/tracing/http_tracer_impl.cc:25-27 | The header's value when the header is present, the default otherwise. |
| HttpTracerUtility.TruncatePath | source/common/tracing/http_tracer_impl.cc:33-36 | The result is the first min(128, length) characters of the path, with nothing added. |
| HttpTracerUtility.BuildUrl | source/common/tracing/http_tracer_impl.cc:29-40 | The url is "proto://host", absent parts empty, followed by the first min(128, n) characters of the path source. The path source is the original path if present, else the path; n is its length. |
| FinalizeProperties.LongPathTruncated | source/common/tracing/http_tracer_impl.cc:33-36 | A 200-character path contributes exactly its first 128 characters to the url. |
| Spans.Span.constructor | source/common/tracing/http_tracer_impl.cc:190-191 | A new span has the given name and start time, no tags, no logs, is not finished, and has an empty journal. |
| Spans.Span.SetTag | source/common/tracing/http_tracer_impl.cc:130 | On an unfinished span, appends one tag and one journal entry; logs are unchanged. |
| Spans.Span.Log | source/common/tracing/http_tracer_impl.cc:88-90 | On an unfinished span, appends one log and one journal entry; tags are unchanged. |
| Spans.Span.FinishSpan | source/common/tracing/http_tracer_impl.cc:174 | Finishes an unfinished span. The journal gains a single Finish; tags and logs are unchanged. |
| HttpTracerUtility.LogMilestone | source/common/tracing/http_tracer_impl.cc:87-91 | Logs startTime + offset under the milestone's event name, if the milestone was recorded. Otherwise it does nothing. |
| HttpTracerUtility.AnnotateVerbose | source/common/tracing/http_tracer_impl.cc:85-122 | Appends exactly VerboseLogs(info) to the logs, in the code's milestone order; tags are unchanged. |
| HttpTracerUtility.SetOptionalTag | source/common/tracing/http_tracer_impl.cc:129-132 | Writes the tag iff the header is present. |
| HttpTracerUtility.WriteHeaderTags | source/common/tracing/http_tracer_impl.cc:129-144 | Appends the request tags in source order: the request id if present, url, method, downstream cluster or "-", user agent or "-", protocol, then the client trace id if present. |
| HttpTracerUtility.WriteCustomTags | source/common/tracing/http_tracer_impl.cc:147-152 | The loop appends, in configuration order, one tag per configured header the request carries, keyed by the header name. |
| HttpTracerUtility.WriteStreamTags | source/common/tracing/http_tracer_impl.cc:154-164 | Appends request_size, upstream_cluster (when a host was selected), http.status_code, response_size and response_flags, in that order. |
| HttpTracerUtility.FinalizeSpan | source/common/tracing/http_tracer_impl.cc:124-175 | Takes an unfinished span to a finished one. The tags grow by FinalizeTags, the logs by FinalizeLogs, and the journal by exactly FinalizeOps. |
| FinalizeProperties.FinalizeOpsWrites | source/common/tracing/http_tracer_impl.cc:124-175 | The tag writes in the finalisation journal are FinalizeTags, and its log writes are FinalizeLogs. |
| FinalizeProperties.FinishedOnceLast | source/common/tracing/http_tracer_impl.cc:174 | Take a span not finished before finalisation. Its journal then holds exactly one Finish, and that Finish is the last call. |
| FinalizeProperties.CustomTagsAppend | source/common/tracing/http_tracer_impl.cc:147-152 | The custom tags of a concatenated name list are the custom tags of each part, in order. This is the configuration order. |
| FinalizeProperties.CustomTagsMembership | source/common/tracing/http_tracer_impl.cc:147-152 | (k, v) is written iff k is configured and the request carries header k with value v. |
| FinalizeProperties.CustomTagsLastValue | source/common/tracing/http_tracer_impl.cc:147-152 | A reader sees the header value for a configured name, and nothing for any other name. |
| FinalizeProperties.HeaderTagsLastValue | source/common/tracing/http_tracer_impl.cc:129-144 | The value a reader sees for each fixed request key, with its default; any other key reads as absent. |
| FinalizeProperties.HeaderTagValues | source/common/tracing/http_tracer_impl.cc:129-144 | The seven values of the fixed request tags as a reader sees them. |
| FinalizeProperties.StreamTagsLastValue | source/common/tracing/http_tracer_impl.cc:154-172 | Which key the stream tags and the error tag shadow after any earlier tags, and with what value. All other keys keep their earlier value. |
| FinalizeProperties.StreamTagValues | source/common/tracing/http_tracer_impl.cc:154-172 | request_size, http.status_code, response_size and response_flags are always present. upstream_cluster is present iff a host was selected. error is "true" iff the response is an error, and absent otherwise. |
| FinalizeProperties.NoRequestTagsWithoutHeaders | source/common/tracing/http_tracer_impl.cc:128-153 | Without request headers, every key other than the stream keys reads as absent. |
| FinalizeProperties.RequestTagLastValue | source/common/tracing/http_tracer_impl.cc:128-153 | With request headers, a non-stream key shows the configured header's value, or else the fixed request tag's value. |
| FinalizeProperties.RequestTagValues | source/common/tracing/http_tracer_impl.cc:129-144 | With request headers, a reader sees the url, method, protocol, and the downstream cluster and user agent or "-". The request and client trace ids appear iff the request carries them. |
| FinalizeProperties.CustomTagValues | source/common/tracing/http_tracer_impl.cc:147-152 | With request headers, a configured name shows the request's header value. A key neither configured nor reserved reads as absent. |
| FinalizeProperties.ErrorTagLast | source/common/tracing/http_tracer_impl.cc:170-172 | The very last tag written is ("error", "true") iff the response code is absent or 5xx. |
| FinalizeProperties.QuietServerError | source/common/tracing/http_tracer_impl.cc:161-174 | A 503 without verbose mode gives error "true" and status "503", no logs, and a final Finish. |
| FinalizeProperties.HeaderTagKeys | source/common/tracing/http_tracer_impl.cc:129-144 | The fixed request tags have distinct keys, all of them request tag keys. |
| FinalizeProperties.StreamTagKeys | source/common/tracing/http_tracer_impl.cc:154-172 | The stream tags and the error tag have distinct keys, all of them stream tag keys. |
| FinalizeProperties.CustomTagKeys | source/common/tracing/http_tracer_impl.cc:147-152 | With distinct configured names, the custom tags have distinct keys, each of them a configured name. |
| FinalizeProperties.FinalizeTagKeysDistinct | source/common/tracing/http_tracer_impl.cc:128-172 | With distinct configured names, none of them a key finalisation writes itself, every tag key is written at most once. Each key written is one of finalisation's own or a configured name. |
| FinalizeProperties.VerboseLogsInOrder | source/common/tracing/http_tracer_impl.cc:85-122 | The verbose logs are the milestones' logs taken in MilestoneOrder. |
| FinalizeProperties.MilestoneLogsSound | source/common/tracing/http_tracer_impl.cc:85-122 | Every log written is (startTime + offset, event name) of a recorded milestone of the visited list. |
| FinalizeProperties.MilestoneLogsComplete | source/common/tracing/http_tracer_impl.cc:85-122 | Every recorded milestone of the visited list gets its log. |
| FinalizeProperties.MilestoneLogsOrdered | source/common/tracing/http_tracer_impl.cc:85-122 | Visiting milestones of increasing rank writes their events in rank order. |
| FinalizeProperties.MilestoneLogsRecorded | source/common/tracing/http_tracer_impl.cc:85-122 | A visited milestone's event is logged iff the milestone was recorded. |
| FinalizeProperties.VerboseLogsExactlyRecorded | source/common/tracing/http_tracer_impl.cc:85-122 | The verbose annotation logs a milestone's event iff the milestone was recorded; absent ones are skipped. |
| FinalizeProperties.VerboseLogsTimedInOrder | source/common/tracing/http_tracer_impl.cc:85-122 | Each verbose log is at startTime + offset of its milestone, and the logs follow the fixed seven-milestone order. |
| FinalizeProperties.QuietFinalizationLogsNothing | source/common/tracing/http_tracer_impl.cc:166-168 | Without verbose mode, finalisation writes no log. |
| FinalizeProperties.VerboseThreeMilestones | source/common/tracing/http_tracer_impl.cc:85-122 | With three of seven milestones recorded, exactly three logs are written, in order, with their times. |
| HttpTracerImpl.Driver.StartSpan | source/common/tracing/http_tracer_impl.cc:190-191 | A fresh empty span with the given name and start time when the driver accepts, null otherwise. |
| HttpTracerImpl.HttpTracer.constructor | source/common/tracing/http_tracer_impl.cc:177-178 | The tracer keeps its driver and the local identity. |
| HttpTracerImpl.HttpTracer.StartSpan | source/common/tracing/http_tracer_impl.cc:180-199 | Returns a span iff the driver does. The span is named "ingress", or "egress " followed by the host. It starts at the stream's start time and carries exactly the component "proxy", node_id and zone tags. |
| HttpTracerImpl.SpanTagKeysDistinct | source/common/tracing/http_tracer_impl.cc:193-195 | Take configured header names that are distinct, none of them a key finalisation writes itself, and none equal to component, node_id or zone. Then the tags of a started and finalised span have pairwise distinct keys. |
| HttpTracerImpl.IdentitySurvivesFinalization | source/common/tracing/http_tracer_impl.cc:193-195 | Finalising a started span leaves the component, node_id and zone values a reader sees unchanged. This holds when no configured name clashes with those keys. |

## Left out

- TruncatePath, BuildUrl, LongPathTruncated: a `char` stands for one byte of the header value. The source cuts the path at 128 bytes. A non-ASCII path, whose characters take several bytes each, is not modelled.
- UUID decoding (`UuidUtils::isTraceableUuid`) is not part of this model. `IsTracing` takes it as a function parameter from the request-id string to a `UuidTraceStatus`.
- The protocol and response-flag formatters are external. The model uses their outputs as the strings `protocolText` and `responseFlagsText` in `StreamInfo`.
- The upstream host is reduced to the name of its cluster (`upstreamCluster`), with `None` meaning no host.
- The tracing driver and the backend are not part of this model. `Driver` is a stub whose answer (a fresh span or null) is fixed when it is built. It does not look at the decision.
- HTTP header maps are plain `map<string, string>`. Case-insensitive lookup and repeated headers are not modelled. A custom header is looked up by its configured, lower-case name.
- `:method` and the path used for the url are dereferenced without a check in the source. `FinalizeSpan` therefore requires them whenever request headers are given (`FinalizableHeaders`). For the same reason `HttpTracer.StartSpan` requires a host for egress.
- Time is an integer. `std::chrono` durations and `duration_cast` become integer offsets added to the start time, with no overflow.
- Sizes and the response code are unbounded naturals. The 64-bit widths of the source are not modelled, because the source performs no arithmetic on them.
- `std::to_string` and `fmt::format` are `NatToString` and sequence concatenation.
- The tag keys, tag values, header names and event names are plain string constants. The headers that define them in the source are not part of this model.
- The `NOT_REACHED` guards have no counterpart: the `match` expressions over the closed enums are exhaustive.
- The timing of the tracing calls relative to stream processing is not modelled, and neither is concurrency.
- Span, once finished, accepts no further call (it is a precondition of every span method). What an actual tracer does on a late write is not modelled.
