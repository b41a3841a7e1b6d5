/**
 * The read-only facts about one request's stream that the tracer consumes.
 * Times are integers (nanoseconds); milestone offsets are durations from the start time.
 */
module Stream {
  import opened Wrappers

  /** The seven byte-transfer milestones, in the order the verbose annotation visits them. */
  datatype Milestone =
    | LastDownstreamRxByteReceived
    | FirstUpstreamTxByteSent
    | LastUpstreamTxByteSent
    | FirstUpstreamRxByteReceived
    | LastUpstreamRxByteReceived
    | FirstDownstreamTxByteSent
    | LastDownstreamTxByteSent

  const MilestoneOrder: seq<Milestone> := [
    LastDownstreamRxByteReceived,
    FirstUpstreamTxByteSent,
    LastUpstreamTxByteSent,
    FirstUpstreamRxByteReceived,
    LastUpstreamRxByteReceived,
    FirstDownstreamTxByteSent,
    LastDownstreamTxByteSent
  ]

  /** The position of a milestone in MilestoneOrder. */
  function Rank(m: Milestone): (r: nat)
    ensures r < |MilestoneOrder| && MilestoneOrder[r] == m
  {
    match m
    case LastDownstreamRxByteReceived => 0
    case FirstUpstreamTxByteSent => 1
    case LastUpstreamTxByteSent => 2
    case FirstUpstreamRxByteReceived => 3
    case LastUpstreamRxByteReceived => 4
    case FirstDownstreamTxByteSent => 5
    case LastDownstreamTxByteSent => 6
  }

  /**
   * upstreamCluster is the name of the cluster owning the selected upstream host (None when
   * no host was selected); protocolText and responseFlagsText are the outputs of the
   * external protocol and response-flag formatters.
   */
  datatype StreamInfo = StreamInfo(
    startTime: int,
    healthCheck: bool,
    bytesReceived: nat,
    bytesSent: nat,
    responseCode: Option<nat>,
    protocolText: string,
    upstreamCluster: Option<string>,
    responseFlagsText: string,
    lastDownstreamRxByteReceived: Option<int>,
    firstUpstreamTxByteSent: Option<int>,
    lastUpstreamTxByteSent: Option<int>,
    firstUpstreamRxByteReceived: Option<int>,
    lastUpstreamRxByteReceived: Option<int>,
    firstDownstreamTxByteSent: Option<int>,
    lastDownstreamTxByteSent: Option<int>)

  /** The recorded offset of a milestone, if any. */
  function Offset(info: StreamInfo, m: Milestone): Option<int> {
    match m
    case LastDownstreamRxByteReceived => info.lastDownstreamRxByteReceived
    case FirstUpstreamTxByteSent => info.firstUpstreamTxByteSent
    case LastUpstreamTxByteSent => info.lastUpstreamTxByteSent
    case FirstUpstreamRxByteReceived => info.firstUpstreamRxByteReceived
    case LastUpstreamRxByteReceived => info.lastUpstreamRxByteReceived
    case FirstDownstreamTxByteSent => info.firstDownstreamTxByteSent
    case LastDownstreamTxByteSent => info.lastDownstreamTxByteSent
  }
}
