/** The data the collectors hand to the normalizer (collector.go) and the shape of
    the evidence pack. Times are integers; protobuf messages are values. A protobuf
    pointer that may be nil is an Option. */
module Evidence {
  import opened Prelude

  /** The open protobuf enum of signal sources. Only the distinctness of the named
      members, and UNSPECIFIED being the zero value, matter to the model. */
  type SignalSource = int
  const UNSPECIFIED: SignalSource := 0
  const DCGM: SignalSource := 1
  const PROMETHEUS: SignalSource := 2
  const DMESG_XID: SignalSource := 3
  const NCCL: SignalSource := 4
  const SCHEDULER: SignalSource := 5
  const PROC: SignalSource := 6

  datatype XidEvent = XidEvent(ts: Option<int>, deviceUuid: string, xid: nat, raw: string, severity: string)

  datatype NcclKind = OpTimeout | OpCompleted | OtherKind(code: int)

  datatype NcclEvent = NcclEvent(ts: Option<int>, kind: NcclKind, communicatorId: string, rank: nat, raw: string)

  datatype TimelineEntry = TimelineEntry(ts: Option<int>, source: SignalSource, signalId: string)

  datatype Mapping = Mapping(deviceUuid: string, node: string, jobId: string, peakTflops: real, costPerHour: real)

  datatype FieldSeries = FieldSeries(deviceUuid: string, symbol: string, samples: seq<real>)

  /** One device's scalar readings; a value is meaningful only when its flag is set. */
  datatype DeviceWindow = DeviceWindow(
    uuid: string, node: string, model: string,
    windowSeconds: real,
    achievedFlops: real, achievedKnown: bool,
    tensorSecs: real, tensorKnown: bool,
    peakFlops: real, peakKnown: bool,
    costPerHour: real, costKnown: bool,
    eccErrs: nat, eccKnown: bool,
    linkErrs: nat, linkKnown: bool)

  /** The zero window of a device: nothing known. */
  function Blank(uuid: string): DeviceWindow {
    DeviceWindow(uuid, "", "", 0.0, 0.0, false, 0.0, false, 0.0, false, 0.0, false, 0, false, 0, false)
  }

  datatype Observation = Observation(
    source: SignalSource,
    mappings: seq<Mapping>,
    dcgmSeries: seq<FieldSeries>,
    xidEvents: seq<Option<XidEvent>>,
    ncclEvents: seq<Option<NcclEvent>>,
    deviceWindows: seq<DeviceWindow>,
    timeline: seq<Option<TimelineEntry>>,
    provenance: map<string, string>)

  datatype EvidencePack = EvidencePack(
    agentId: string, windowStart: int, windowEnd: int,
    provenance: map<string, string>,
    dcgmSeries: seq<FieldSeries>,
    xidEvents: seq<Option<XidEvent>>,
    ncclEvents: seq<Option<NcclEvent>>,
    mappings: seq<Mapping>,
    timeline: seq<TimelineEntry>)

  /** The outcome of a fault gate: it abstains or names a fault class. */
  datatype FaultClass = Abstain | Fault(code: nat)
  datatype Verdict = Verdict(faultClass: FaultClass, detail: string)

  // ---- flagged readings, seen as optional values

  function AchievedOf(w: DeviceWindow): Option<real> { if w.achievedKnown then Some(w.achievedFlops) else None }
  function TensorOf(w: DeviceWindow): Option<real> { if w.tensorKnown then Some(w.tensorSecs) else None }
  function PeakOf(w: DeviceWindow): Option<real> { if w.peakKnown then Some(w.peakFlops) else None }
  function CostOf(w: DeviceWindow): Option<real> { if w.costKnown then Some(w.costPerHour) else None }
  function EccOf(w: DeviceWindow): Option<nat> { if w.eccKnown then Some(w.eccErrs) else None }
  function LinkOf(w: DeviceWindow): Option<nat> { if w.linkKnown then Some(w.linkErrs) else None }

  // ---- unflagged readings, absent when empty

  function NodeOf(w: DeviceWindow): Option<string> { if w.node != "" then Some(w.node) else None }
  function ModelOf(w: DeviceWindow): Option<string> { if w.model != "" then Some(w.model) else None }
  function SpanOf(w: DeviceWindow): Option<real> { if w.windowSeconds > 0.0 then Some(w.windowSeconds) else None }
}
