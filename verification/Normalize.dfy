/** Normalize (normalize.go): folding the source-tagged observations of one cycle
    into a signal window. GatherObservations is the first pass of the Go function
    (over observations), BuildWindow the second (over devices). */
module Normalize {
  import opened Prelude
  import opened Ordering
  import opened Evidence
  import opened Legs
  import opened Gather

  datatype Device = Device(uuid: string, node: string, model: string)
  datatype DeviceJob = DeviceJob(device: Device, jobId: string)
  datatype JobDevices = JobDevices(jobId: string, devices: seq<Device>)
  datatype DeviceSample = DeviceSample(device: Device, windowSeconds: real, achievedFlops: real, tensorSecs: real)
  datatype PeakAndCost = PeakAndCost(peakFlops: real, costPerHour: real)

  /** The library functions the window depends on, left uninterpreted. */
  datatype Library = Library(
    resolveMapping: seq<DeviceJob> -> Result<seq<JobDevices>, Error>,
    formatSeconds: int -> string)

  datatype Field = JobId | WindowSeconds | AchievedFlops | Mfu | TensorActive | Cost
  datatype DegradeMark = DegradeMark(deviceUuid: string, field: Field)

  datatype SignalWindow = SignalWindow(
    pack: EvidencePack,
    jobs: seq<JobDevices>,
    samples: map<string, DeviceSample>,
    specs: map<string, PeakAndCost>,
    devices: map<string, Device>,
    degraded: seq<DegradeMark>,
    sources: seq<SignalSource>,
    start: int, end: int)

  const TERA: real := 1000000000000.0

  // ---- what one device contributes, given everything gathered

  function WindowOf(g: Gathered, u: string): DeviceWindow {
    Or(g.windows, u, Blank(u))
  }

  function DeviceOf(w: DeviceWindow): Device {
    Device(w.uuid, w.node, w.model)
  }

  /** The counter leg of a device: at most one, attributed to a source that saw the
      double-bit counter move, DCGM first. */
  function EccDevices(g: Gathered): string -> seq<EccDevice> {
    u =>
      if !EccHit(WindowOf(g, u)) then []
      else if u in g.seen.eccDcgm then [EccDevice(u, DCGM)]
      else if u in g.seen.eccProm then [EccDevice(u, PROMETHEUS)]
      else []
  }

  function LinkDevices(g: Gathered): string -> seq<string> {
    u => if LinkHit(WindowOf(g, u)) && u in g.seen.linkDcgm then [u] else []
  }

  /** The published mapping: the gathered one or a job-less one, with the known peak
      and cost stamped on it. */
  function PackMapping(g: Gathered, u: string): Mapping {
    var w := WindowOf(g, u);
    var m := Or(g.mappings, u, Mapping(u, w.node, "", 0.0, 0.0));
    m.(peakTflops := if w.peakKnown then w.peakFlops / TERA else m.peakTflops,
       costPerHour := if w.costKnown then w.costPerHour else m.costPerHour)
  }

  function PackMappings(g: Gathered): string -> seq<Mapping> {
    u => [PackMapping(g, u)]
  }

  function MarkIf(missing: bool, u: string, f: Field): seq<DegradeMark> {
    if missing then [DegradeMark(u, f)] else []
  }

  function MarksOf(g: Gathered, u: string): seq<DegradeMark> {
    var w := WindowOf(g, u);
    MarkIf(u !in g.mappings, u, JobId) + MarkIf(w.windowSeconds <= 0.0, u, WindowSeconds)
    + MarkIf(!w.achievedKnown, u, AchievedFlops) + MarkIf(!w.peakKnown, u, Mfu)
    + MarkIf(!w.tensorKnown, u, TensorActive) + MarkIf(!w.costKnown, u, Cost)
  }

  function Marks(g: Gathered): string -> seq<DegradeMark> {
    u => MarksOf(g, u)
  }

  predicate CanMfu(w: DeviceWindow) {
    w.windowSeconds > 0.0 && w.achievedKnown && w.peakKnown
  }

  predicate AnyWindow(w: DeviceWindow) {
    true
  }

  function PriceOf(w: DeviceWindow): PeakAndCost {
    PeakAndCost(w.peakFlops, w.costPerHour)
  }

  function SampleOf(w: DeviceWindow): DeviceSample {
    DeviceSample(DeviceOf(w), w.windowSeconds, w.achievedFlops, w.tensorSecs)
  }

  /** The devices among uuids that qualify, with what is derived from each. */
  function Where<T>(g: Gathered, uuids: set<string>, keep: DeviceWindow -> bool, f: DeviceWindow -> T): map<string, T> {
    map u | u in uuids && keep(WindowOf(g, u)) :: f(WindowOf(g, u))
  }

  function Edges(g: Gathered): string -> seq<DeviceJob> {
    u => if u in g.mappings && g.mappings[u].jobId != ""
      then [DeviceJob(DeviceOf(WindowOf(g, u)), g.mappings[u].jobId)] else []
  }

  function Citations(now: int): SignalSource -> seq<TimelineEntry> {
    s => [TimelineEntry(Some(now), s, "")]
  }

  ghost function SortedSources(g: Gathered): seq<SignalSource> {
    IntLeqIsTotal();
    Ascending(Elements(g.sources), IntLeq)
  }

  ghost function SortedUuids(g: Gathered): seq<string> {
    StrLeqIsTotal();
    Ascending(g.windows.Keys, StrLeq)
  }

  /** The legs derived from structured facts, in emission order. */
  ghost function DerivedLegs(g: Gathered, now: int): seq<TimelineEntry> {
    FlatMap(g.xidFacts, XidLegs(now)) + FlatMap(g.ncclFacts, NcclLegs(now))
    + FlatMap(FlatMap(SortedUuids(g), EccDevices(g)), EccLegs(now))
    + FlatMap(FlatMap(SortedUuids(g), LinkDevices(g)), LinkLegs(now))
  }

  function AgentStamps(degraded: nat, window: int, lib: Library): map<string, string> {
    map["agent.contract_version" := "v1", "agent.window_seconds" := lib.formatSeconds(window),
        "agent.degraded_marks" := Decimal(degraded)]
  }

  /** The published window as a function of the observations alone. */
  ghost function WindowFor(agentId: string, now: int, window: int, g: Gathered, jobs: seq<JobDevices>, lib: Library)
    : SignalWindow
  {
    var uuids := SortedUuids(g);
    var degraded := FlatMap(uuids, Marks(g));
    SignalWindow(
      EvidencePack(agentId, now - window, now,
                   g.provenance + AgentStamps(|degraded|, window, lib),
                   g.dcgmSeries, g.xidEvents, g.ncclEvents,
                   FlatMap(uuids, PackMappings(g)),
                   FlatMap(SortedSources(g), Citations(now)) + DerivedLegs(g, now) + g.injected),
      jobs,
      Where(g, g.windows.Keys, CanMfu, SampleOf),
      Where(g, g.windows.Keys, CanMfu, PriceOf),
      Where(g, g.windows.Keys, AnyWindow, DeviceOf),
      degraded, SortedSources(g), now - window, now)
  }

  function ResolveError(e: Error): Error {
    Error("agent: resolve device->job mapping: " + e.msg, e.capped)
  }

  ghost function Normalized(agentId: string, now: int, window: int, obs: seq<Observation>, lib: Library)
    : Result<SignalWindow, Error>
  {
    var g := GatherAll(obs);
    match lib.resolveMapping(FlatMap(SortedUuids(g), Edges(g)))
    case Err(e) => Err(ResolveError(e))
    case Ok(jobs) => Ok(WindowFor(agentId, now, window, g, jobs, lib))
  }

  /** The second pass: one walk over the devices in ascending uuid order. */
  datatype DevicePass = DevicePass(
    ecc: seq<EccDevice>, link: seq<string>, mappings: seq<Mapping>, degraded: seq<DegradeMark>,
    samples: map<string, DeviceSample>, specs: map<string, PeakAndCost>, devices: map<string, Device>)

  ghost function PassOver(g: Gathered, uuids: seq<string>): DevicePass {
    var us := Elements(uuids);
    DevicePass(
      FlatMap(uuids, EccDevices(g)), FlatMap(uuids, LinkDevices(g)), FlatMap(uuids, PackMappings(g)),
      FlatMap(uuids, Marks(g)),
      Where(g, us, CanMfu, SampleOf), Where(g, us, CanMfu, PriceOf), Where(g, us, AnyWindow, DeviceOf))
  }

  method MarkDegraded(g: Gathered, u: string, dw: DeviceWindow) returns (marks: seq<DegradeMark>, canMfu: bool)
    requires dw == WindowOf(g, u)
    ensures marks == MarksOf(g, u) && canMfu == CanMfu(dw)
  {
    marks := MarkIf(u !in g.mappings, u, JobId);
    canMfu := true;
    if dw.windowSeconds <= 0.0 {
      canMfu := false;
      marks := marks + [DegradeMark(u, WindowSeconds)];
    }
    assert marks == MarkIf(u !in g.mappings, u, JobId) + MarkIf(dw.windowSeconds <= 0.0, u, WindowSeconds);
    ghost var early := marks;
    if !dw.achievedKnown {
      canMfu := false;
      marks := marks + [DegradeMark(u, AchievedFlops)];
    }
    assert marks == early + MarkIf(!dw.achievedKnown, u, AchievedFlops);
    early := marks;
    if !dw.peakKnown {
      canMfu := false;
      marks := marks + [DegradeMark(u, Mfu)];
    }
    assert marks == early + MarkIf(!dw.peakKnown, u, Mfu);
    early := marks;
    if !dw.tensorKnown {
      marks := marks + [DegradeMark(u, TensorActive)];
    }
    assert marks == early + MarkIf(!dw.tensorKnown, u, TensorActive);
    early := marks;
    if !dw.costKnown {
      marks := marks + [DegradeMark(u, Cost)];
    }
    assert marks == early + MarkIf(!dw.costKnown, u, Cost);
  }

  method MapDevice(g: Gathered, u: string, dw: DeviceWindow) returns (m: Mapping)
    requires dw == WindowOf(g, u)
    ensures m == PackMapping(g, u)
  {
    m := if u in g.mappings then g.mappings[u] else Mapping(u, dw.node, "", 0.0, 0.0);
    if dw.peakKnown {
      m := m.(peakTflops := dw.peakFlops / TERA);
    }
    if dw.costKnown {
      m := m.(costPerHour := dw.costPerHour);
    }
  }

  /** q is p after device u has been visited. */
  ghost predicate Visits(g: Gathered, u: string, p: DevicePass, q: DevicePass) {
    var w := WindowOf(g, u);
    && q.ecc == p.ecc + EccDevices(g)(u) && q.link == p.link + LinkDevices(g)(u)
    && q.mappings == p.mappings + [PackMapping(g, u)] && q.degraded == p.degraded + MarksOf(g, u)
    && q.samples == (if CanMfu(w) then p.samples[u := SampleOf(w)] else p.samples)
    && q.specs == (if CanMfu(w) then p.specs[u := PriceOf(w)] else p.specs)
    && q.devices == p.devices[u := DeviceOf(w)]
  }

  method AttributeCounters(g: Gathered, u: string, dw: DeviceWindow, p: DevicePass)
    returns (ecc: seq<EccDevice>, link: seq<string>)
    requires dw == WindowOf(g, u)
    ensures ecc == p.ecc + EccDevices(g)(u) && link == p.link + LinkDevices(g)(u)
  {
    ecc, link := p.ecc, p.link;
    if dw.eccKnown && dw.eccErrs > 0 && u in g.seen.eccDcgm {
      ecc := ecc + [EccDevice(u, DCGM)];
    } else if dw.eccKnown && dw.eccErrs > 0 && u in g.seen.eccProm {
      ecc := ecc + [EccDevice(u, PROMETHEUS)];
    }
    if dw.linkKnown && dw.linkErrs > 0 && u in g.seen.linkDcgm {
      link := link + [u];
    }
  }

  method VisitDevice(g: Gathered, u: string, p: DevicePass) returns (q: DevicePass)
    requires u in g.windows
    ensures Visits(g, u, p, q)
  {
    var dw := g.windows[u];
    var ecc, link := AttributeCounters(g, u, dw, p);
    var m := MapDevice(g, u, dw);
    var marks, canMfu := MarkDegraded(g, u, dw);
    var samples, specs := p.samples, p.specs;
    if canMfu {
      samples, specs := samples[u := SampleOf(dw)], specs[u := PriceOf(dw)];
    }
    q := DevicePass(ecc, link, p.mappings + [m], p.degraded + marks, samples, specs, p.devices[u := DeviceOf(dw)]);
  }

  method WalkDevices(g: Gathered, uuids: seq<string>) returns (p: DevicePass)
    requires forall u :: u in uuids ==> u in g.windows
    ensures p == PassOver(g, uuids)
  {
    p := DevicePass([], [], [], [], map[], map[], map[]);
    for i := 0 to |uuids|
      invariant p == PassOver(g, uuids[..i])
    {
      PassStep(g, uuids, i);
      p := VisitDevice(g, uuids[i], p);
    }
    assert uuids[..|uuids|] == uuids;
  }

  lemma WhereStep<T>(g: Gathered, us: set<string>, u: string, keep: DeviceWindow -> bool, f: DeviceWindow -> T)
    ensures Where(g, us + {u}, keep, f)
         == if keep(WindowOf(g, u)) then Where(g, us, keep, f)[u := f(WindowOf(g, u))] else Where(g, us, keep, f)
  {
  }

  lemma PassStep(g: Gathered, uuids: seq<string>, i: nat)
    requires i < |uuids|
    ensures Visits(g, uuids[i], PassOver(g, uuids[..i]), PassOver(g, uuids[..i + 1]))
  {
    FlatMapStep(uuids, EccDevices(g), i);
    FlatMapStep(uuids, LinkDevices(g), i);
    FlatMapStep(uuids, PackMappings(g), i);
    FlatMapStep(uuids, Marks(g), i);
    var us := Elements(uuids[..i]);
    assert Elements(uuids[..i + 1]) == us + {uuids[i]};
    WhereStep(g, us, uuids[i], CanMfu, SampleOf);
    WhereStep(g, us, uuids[i], CanMfu, PriceOf);
    WhereStep(g, us, uuids[i], AnyWindow, DeviceOf);
  }

  method ResolveEdges(g: Gathered, uuids: seq<string>) returns (edges: seq<DeviceJob>)
    requires forall u :: u in uuids ==> u in g.windows
    ensures edges == FlatMap(uuids, Edges(g))
  {
    edges := [];
    for i := 0 to |uuids|
      invariant edges == FlatMap(uuids[..i], Edges(g))
    {
      FlatMapStep(uuids, Edges(g), i);
      var u := uuids[i];
      if u !in g.mappings || g.mappings[u].jobId == "" {
        continue;
      }
      edges := edges + [DeviceJob(DeviceOf(g.windows[u]), g.mappings[u].jobId)];
    }
    FlatMapWhole(uuids, Edges(g));
  }

  method CiteSources(sources: seq<SignalSource>, now: int) returns (out: seq<TimelineEntry>)
    ensures out == FlatMap(sources, Citations(now))
  {
    out := [];
    for i := 0 to |sources|
      invariant out == FlatMap(sources[..i], Citations(now))
    {
      FlatMapStep(sources, Citations(now), i);
      out := out + [TimelineEntry(Some(now), sources[i], "")];
    }
    FlatMapWhole(sources, Citations(now));
  }

  method Normalize(agentId: string, now: int, window: int, obs: seq<Observation>, lib: Library)
    returns (r: Result<SignalWindow, Error>)
    ensures r == Normalized(agentId, now, window, obs, lib)
  {
    var g := GatherObservations(obs);
    IntLeqIsTotal();
    StrLeqIsTotal();
    var sources := SortedKeys((set s | s in g.sources), IntLeq);
    var uuids := SortedKeys(g.windows.Keys, StrLeq);
    assert forall u :: u in uuids ==> u in Elements(uuids);
    assert sources == SortedSources(g) && uuids == SortedUuids(g);
    var p := WalkDevices(g, uuids);
    var edges := ResolveEdges(g, uuids);
    match lib.resolveMapping(edges) {
      case Err(e) =>
        r := Err(ResolveError(e));
      case Ok(jobs) =>
        var citations := CiteSources(sources, now);
        var legs := FaultTimeline(g.xidFacts, g.ncclFacts, p.ecc, p.link, now);
        r := Ok(SignalWindow(
          EvidencePack(agentId, now - window, now,
                       g.provenance + AgentStamps(|p.degraded|, window, lib),
                       g.dcgmSeries, g.xidEvents, g.ncclEvents, p.mappings,
                       citations + legs + g.injected),
          jobs, p.samples, p.specs, p.devices, p.degraded, sources, now - window, now));
    }
  }
}
