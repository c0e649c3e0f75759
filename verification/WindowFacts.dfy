/** More promises of Normalize: degrade marks, cost inputs and published mappings stated
    directly over the observations, and where the documentation says more than the code
    delivers. */
module WindowFacts {
  import opened Prelude
  import opened Ordering
  import opened Evidence
  import opened Merge
  import opened Legs
  import opened Gather
  import opened Normalize
  import opened Provenance

  // ---- degrade marks

  /** No reading of device u supplies the field. */
  ghost predicate Unread<T(!new)>(obs: seq<Observation>, u: string, read: DeviceWindow -> Option<T>) {
    var ws := AllReadings(obs, u);
    NoneBefore(ws, read, |ws|)
  }

  /** The input behind a field is missing from every observation. */
  ghost predicate Gap(obs: seq<Observation>, u: string, f: Field) {
    match f
    case JobId => AllMappingsFor(obs, u) == []
    case WindowSeconds => Unread(obs, u, SpanOf)
    case AchievedFlops => Unread(obs, u, AchievedOf)
    case Mfu => Unread(obs, u, PeakOf)
    case TensorActive => Unread(obs, u, TensorOf)
    case Cost => Unread(obs, u, CostOf)
  }

  predicate Missing(g: Gathered, u: string, f: Field) {
    var w := WindowOf(g, u);
    match f
    case JobId => u !in g.mappings
    case WindowSeconds => w.windowSeconds <= 0.0
    case AchievedFlops => !w.achievedKnown
    case Mfu => !w.peakKnown
    case TensorActive => !w.tensorKnown
    case Cost => !w.costKnown
  }

  lemma NoneMeansUnread<T(!new)>(ws: seq<DeviceWindow>, read: DeviceWindow -> Option<T>, r: Option<T>)
    requires FirstKnown(ws, read, r) || LastKnown(ws, read, r)
    ensures r.None? <==> NoneBefore(ws, read, |ws|)
  {
    if r.Some? && FirstKnown(ws, read, r) {
      var i :| 0 <= i < |ws| && read(ws[i]) == r && NoneBefore(ws, read, i);
    } else if r.Some? {
      var i :| 0 <= i < |ws| && read(ws[i]) == r && NoneAfter(ws, read, i);
    }
  }

  lemma MissingIsGap(g: Gathered, obs: seq<Observation>, u: string, f: Field)
    requires Summarizes(g, obs, u)
    ensures Missing(g, u, f) <==> Gap(obs, u, f)
  {
    var ws, w := AllReadings(obs, u), WindowOf(g, u);
    match f
    case JobId =>
      var r := Lookup(g.mappings, u);
      if r.Some? && AllMappingsFor(obs, u) == [] { assert false; }
    case WindowSeconds => NoneMeansUnread(ws, SpanOf, SpanOf(w));
    case AchievedFlops => NoneMeansUnread(ws, AchievedOf, AchievedOf(w));
    case Mfu => NoneMeansUnread(ws, PeakOf, PeakOf(w));
    case TensorActive => NoneMeansUnread(ws, TensorOf, TensorOf(w));
    case Cost => NoneMeansUnread(ws, CostOf, CostOf(w));
  }

  lemma MarkIfMember(missing: bool, u: string, f: Field, d: DegradeMark)
    ensures d in MarkIf(missing, u, f) <==> missing && d.deviceUuid == u && d.field == f
  {
  }

  lemma MarkMember(g: Gathered, u: string, d: DegradeMark)
    ensures d in MarksOf(g, u) <==> d.deviceUuid == u && Missing(g, u, d.field)
  {
    var w := WindowOf(g, u);
    AnyOfSix(u, d, u !in g.mappings, w.windowSeconds <= 0.0, !w.achievedKnown, !w.peakKnown, !w.tensorKnown, !w.costKnown);
  }

  lemma AnyOfSix(u: string, d: DegradeMark, job: bool, span: bool, achieved: bool, peak: bool, tensor: bool, cost: bool)
    ensures d in MarkIf(job, u, JobId) + MarkIf(span, u, WindowSeconds) + MarkIf(achieved, u, AchievedFlops)
                 + MarkIf(peak, u, Mfu) + MarkIf(tensor, u, TensorActive) + MarkIf(cost, u, Cost)
       <==> d.deviceUuid == u && match d.field
                                 case JobId => job
                                 case WindowSeconds => span
                                 case AchievedFlops => achieved
                                 case Mfu => peak
                                 case TensorActive => tensor
                                 case Cost => cost
  {
    InSixParts(MarkIf(job, u, JobId), MarkIf(span, u, WindowSeconds), MarkIf(achieved, u, AchievedFlops),
               MarkIf(peak, u, Mfu), MarkIf(tensor, u, TensorActive), MarkIf(cost, u, Cost), d);
    MarkIfMember(job, u, JobId, d);
    MarkIfMember(span, u, WindowSeconds, d);
    MarkIfMember(achieved, u, AchievedFlops, d);
    MarkIfMember(peak, u, Mfu, d);
    MarkIfMember(tensor, u, TensorActive, d);
    MarkIfMember(cost, u, Cost, d);
  }

  lemma InSixParts<T>(a: seq<T>, b: seq<T>, c: seq<T>, x: seq<T>, y: seq<T>, z: seq<T>, d: T)
    ensures d in a + b + c + x + y + z <==> d in a || d in b || d in c || d in x || d in y || d in z
  {
  }

  lemma MarksListed(g: Gathered, us: seq<string>, u: string, f: Field)
    requires Lists(us, g)
    ensures DegradeMark(u, f) in FlatMap(us, Marks(g)) <==> u in g.windows && Missing(g, u, f)
  {
    var d := DegradeMark(u, f);
    FlatMapMember(us, Marks(g), d);
    forall v { MarkMember(g, v, d); }
    if u in us {
      var i :| 0 <= i < |us| && us[i] == u;
      assert d in Marks(g)(us[i]) <==> Missing(g, u, f);
    }
  }

  /** Degrade, never fabricate: a device of the window is marked for a field iff no
      observation at all supplied the field's input. */
  lemma MarksAreExactlyTheGaps(agentId: string, now: int, window: int, obs: seq<Observation>, lib: Library,
                               win: SignalWindow, u: string, f: Field)
    requires Normalized(agentId, now, window, obs, lib) == Ok(win)
    ensures DegradeMark(u, f) in win.degraded <==> u in win.devices && Gap(obs, u, f)
  {
    MarksFromGathered(agentId, now, window, obs, lib, GatherAll(obs), win, u, f);
  }

  lemma MarksFromGathered(agentId: string, now: int, window: int, obs: seq<Observation>, lib: Library,
                          g: Gathered, win: SignalWindow, u: string, f: Field)
    requires win == WindowFor(agentId, now, window, g, win.jobs, lib) && g == GatherAll(obs)
    ensures DegradeMark(u, f) in win.degraded <==> u in win.devices && Gap(obs, u, f)
  {
    SortedUuidsList(g);
    MarksListed(g, SortedUuids(g), u, f);
    GatherGap(g, obs, u, f);
  }

  lemma GatherGap(g: Gathered, obs: seq<Observation>, u: string, f: Field)
    requires g == GatherAll(obs)
    ensures Missing(g, u, f) <==> Gap(obs, u, f)
  {
    GatherSummarizes(obs, u);
    MissingIsGap(g, obs, u, f);
  }

  /** The mark is said to appear when no source resolved a job; a mapping that names
      no job hides it. Among devices without a job, the marked ones are those that no
      mapping mentions. */
  lemma UnresolvedJobMarkedIff(agentId: string, now: int, window: int, obs: seq<Observation>, lib: Library,
                               win: SignalWindow, u: string)
    requires Normalized(agentId, now, window, obs, lib) == Ok(win)
    requires u in win.devices && forall m :: m in AllMappingsFor(obs, u) ==> m.jobId == ""
    ensures DegradeMark(u, JobId) in win.degraded <==> forall o :: o in obs ==> forall m :: m in o.mappings ==> m.deviceUuid != u
  {
    MarksAreExactlyTheGaps(agentId, now, window, obs, lib, win, u, JobId);
    NoMappingIffUnmentioned(obs, u);
  }

  /** One observation: a window of device u, and a mapping of u that names no job. */
  predicate Jobless(o: Observation, u: string) {
    && |o.deviceWindows| == 1 && o.deviceWindows[0].uuid == u
    && |o.mappings| == 1 && o.mappings[0].deviceUuid == u && o.mappings[0].jobId == ""
  }

  lemma JoblessGathers(o: Observation, u: string, obs: seq<Observation>)
    requires Jobless(o, u) && obs == [o]
    ensures AllMappingsFor(obs, u) == o.mappings && FlatMap(obs, AllWindows) == o.deviceWindows
  {
    FlatMapOne(o, AllWindows);
    FlatMapOne(o, AllMappings);
    SelectAll(o.mappings, ForDevice(u));
  }

  lemma JoblessIsKnown(o: Observation, u: string, obs: seq<Observation>)
    requires Jobless(o, u) && obs == [o]
    ensures u in GatherAll(obs).windows
  {
    JoblessGathers(o, u, obs);
    MergeIsPerDevice(obs, u);
    assert o.deviceWindows[0] in FlatMap(obs, AllWindows);
  }

  lemma JoblessHasNoGap(o: Observation, u: string, obs: seq<Observation>)
    requires Jobless(o, u) && obs == [o]
    ensures !Gap(obs, u, JobId)
  {
    JoblessGathers(o, u, obs);
  }

  /** Its device has no job, and no mark says so. */
  lemma JoblessIsUnmarked(agentId: string, now: int, window: int, lib: Library, o: Observation, u: string)
    requires Jobless(o, u) && forall edges :: lib.resolveMapping(edges).Ok?
    ensures var r := Normalized(agentId, now, window, [o], lib);
            r.Ok? && u in r.value.devices && DegradeMark(u, JobId) !in r.value.degraded
  {
    JoblessWindow(agentId, now, window, lib, o, u, [o]);
  }

  lemma JoblessWindow(agentId: string, now: int, window: int, lib: Library, o: Observation, u: string,
                      obs: seq<Observation>)
    requires Jobless(o, u) && obs == [o] && forall edges :: lib.resolveMapping(edges).Ok?
    ensures var r := Normalized(agentId, now, window, obs, lib);
            r.Ok? && u in r.value.devices && DegradeMark(u, JobId) !in r.value.degraded
  {
    var win := Normalized(agentId, now, window, obs, lib).value;
    JoblessIsKnown(o, u, obs);
    JoblessHasNoGap(o, u, obs);
    MarksAreExactlyTheGaps(agentId, now, window, obs, lib, win, u, JobId);
  }

  lemma AJoblessObservation()
    ensures Jobless(Observation(SCHEDULER, [Mapping("g", "", "", 0.0, 0.0)], [], [], [], [Blank("g")], [], map[]), "g")
  {
  }

  lemma NoMappingIffUnmentioned(obs: seq<Observation>, u: string)
    ensures AllMappingsFor(obs, u) == [] <==> forall o :: o in obs ==> forall m :: m in o.mappings ==> m.deviceUuid != u
  {
    var all := FlatMap(obs, AllMappings);
    if AllMappingsFor(obs, u) == [] {
      forall o, m | o in obs && m in o.mappings ensures m.deviceUuid != u {
        var i :| 0 <= i < |obs| && obs[i] == o;
        assert m in AllMappings(obs[i]);
        FlatMapMember(obs, AllMappings, m);
        SelectMember(all, ForDevice(u), m);
      }
    } else {
      var m := AllMappingsFor(obs, u)[0];
      SelectMember(all, ForDevice(u), m);
      FlatMapMember(obs, AllMappings, m);
      var i :| 0 <= i < |obs| && m in AllMappings(obs[i]);
      assert obs[i] in obs && m in obs[i].mappings;
    }
  }

  // ---- cost inputs

  /** Device u enters the cost wedge iff a positive window, achieved FLOPs and a peak
      were each supplied by some source, and then with the first known values. */
  ghost predicate PricedOnlyIfMeasured(win: SignalWindow, obs: seq<Observation>, u: string) {
    && (u in win.samples <==> u in win.specs)
    && (u in win.samples <==> u in win.devices && !Gap(obs, u, WindowSeconds)
                              && !Gap(obs, u, AchievedFlops) && !Gap(obs, u, Mfu))
    && (u in win.samples && u in win.specs ==>
          ReadFrom(obs, u, win.samples[u], win.specs[u]))
  }

  lemma SamplesAreExact(agentId: string, now: int, window: int, obs: seq<Observation>, lib: Library,
                        win: SignalWindow, u: string)
    requires Normalized(agentId, now, window, obs, lib) == Ok(win)
    ensures PricedOnlyIfMeasured(win, obs, u)
  {
    PricedFromGathered(agentId, now, window, obs, lib, GatherAll(obs), win, u);
  }

  lemma PricedFromGathered(agentId: string, now: int, window: int, obs: seq<Observation>, lib: Library,
                           g: Gathered, win: SignalWindow, u: string)
    requires win == WindowFor(agentId, now, window, g, win.jobs, lib) && g == GatherAll(obs)
    ensures PricedOnlyIfMeasured(win, obs, u)
  {
    GatherSummarizes(obs, u);
    PricedIfSummarized(agentId, now, window, obs, lib, g, win, u);
  }

  lemma PricedIfSummarized(agentId: string, now: int, window: int, obs: seq<Observation>, lib: Library,
                           g: Gathered, win: SignalWindow, u: string)
    requires win == WindowFor(agentId, now, window, g, win.jobs, lib) && Summarizes(g, obs, u)
    ensures PricedOnlyIfMeasured(win, obs, u)
  {
    SampleInputs(g, obs, u);
    Tabled(agentId, now, window, g, win.jobs, lib, u);
    PricedFrom(win, obs, u, WindowOf(g, u));
  }

  /** The window's tables hold what the walk over the devices put there. */
  ghost predicate Holds(win: SignalWindow, u: string, w: DeviceWindow) {
    && (u in win.samples <==> u in win.devices && CanMfu(w))
    && (u in win.specs <==> u in win.devices && CanMfu(w))
    && (u in win.samples ==> win.samples[u] == SampleOf(w))
    && (u in win.specs ==> win.specs[u] == PriceOf(w))
  }

  lemma Tabled(agentId: string, now: int, window: int, g: Gathered, jobs: seq<JobDevices>, lib: Library, u: string)
    ensures Holds(WindowFor(agentId, now, window, g, jobs, lib), u, WindowOf(g, u))
  {
  }

  /** What is known of the merged window w of device u. */
  ghost predicate Measured(obs: seq<Observation>, u: string, w: DeviceWindow) {
    && (CanMfu(w) <==> !Gap(obs, u, WindowSeconds) && !Gap(obs, u, AchievedFlops) && !Gap(obs, u, Mfu))
    && (CanMfu(w) ==> ReadFrom(obs, u, SampleOf(w), PriceOf(w)))
  }

  /** A name, absent when empty. */
  function Named(s: string): Option<string> { if s != "" then Some(s) else None }

  /** Sample and price are the readings of the device: last supplied identity and window,
      first known achieved work and peak; tensor time and price likewise, zero if no
      observation supplies them. */
  ghost predicate ReadFrom(obs: seq<Observation>, u: string, s: DeviceSample, p: PeakAndCost) {
    IdentifiedFrom(obs, u, s.device) && MeasuredFrom(obs, u, s, p)
  }

  ghost predicate IdentifiedFrom(obs: seq<Observation>, u: string, d: Device) {
    var ws := AllReadings(obs, u);
    d.uuid == u && LastKnown(ws, NodeOf, Named(d.node)) && LastKnown(ws, ModelOf, Named(d.model))
  }

  ghost predicate MeasuredFrom(obs: seq<Observation>, u: string, s: DeviceSample, p: PeakAndCost) {
    var ws := AllReadings(obs, u);
    && LastKnown(ws, SpanOf, Some(s.windowSeconds))
    && FirstKnown(ws, AchievedOf, Some(s.achievedFlops))
    && FirstKnown(ws, PeakOf, Some(p.peakFlops))
    && (if Gap(obs, u, TensorActive) then s.tensorSecs == 0.0 else FirstKnown(ws, TensorOf, Some(s.tensorSecs)))
    && (if Gap(obs, u, Cost) then p.costPerHour == 0.0 else FirstKnown(ws, CostOf, Some(p.costPerHour)))
  }

  lemma PricedFrom(win: SignalWindow, obs: seq<Observation>, u: string, w: DeviceWindow)
    requires Measured(obs, u, w) && Holds(win, u, w)
    ensures PricedOnlyIfMeasured(win, obs, u)
  {
  }

  lemma SampleInputs(g: Gathered, obs: seq<Observation>, u: string)
    requires Summarizes(g, obs, u)
    ensures Measured(obs, u, WindowOf(g, u))
  {
    MissingIsGap(g, obs, u, WindowSeconds);
    MissingIsGap(g, obs, u, AchievedFlops);
    MissingIsGap(g, obs, u, Mfu);
    if CanMfu(WindowOf(g, u)) {
      SampleIdentity(g, obs, u);
      SampleMeasures(g, obs, u);
    }
  }

  lemma SampleIdentity(g: Gathered, obs: seq<Observation>, u: string)
    requires Summarizes(g, obs, u)
    ensures IdentifiedFrom(obs, u, DeviceOf(WindowOf(g, u)))
  {
    assert IsMergeOf(AllReadings(obs, u), WindowOf(g, u));
  }

  lemma SampleMeasures(g: Gathered, obs: seq<Observation>, u: string)
    requires Summarizes(g, obs, u) && CanMfu(WindowOf(g, u))
    ensures MeasuredFrom(obs, u, SampleOf(WindowOf(g, u)), PriceOf(WindowOf(g, u)))
  {
    MissingIsGap(g, obs, u, TensorActive);
    MissingIsGap(g, obs, u, Cost);
  }

  // ---- the published mappings

  function ZeroIfNone(r: Option<Mapping>, f: Mapping -> real): real {
    if r.Some? then f(r.value) else 0.0
  }

  function OwnPeak(m: Mapping): real { m.peakTflops }
  function OwnCost(m: Mapping): real { m.costPerHour }

  /** The mapping's peak is the first known one, else the chosen mapping's own, else zero. */
  ghost predicate PeakFrom(obs: seq<Observation>, u: string, r: Option<Mapping>, tflops: real) {
    if Gap(obs, u, Mfu) then tflops == ZeroIfNone(r, OwnPeak)
    else exists f :: FirstKnown(AllReadings(obs, u), PeakOf, Some(f)) && tflops == f / 1000000000000.0
  }

  /** And its price likewise. */
  ghost predicate CostFrom(obs: seq<Observation>, u: string, r: Option<Mapping>, cost: real) {
    if Gap(obs, u, Cost) then cost == ZeroIfNone(r, OwnCost)
    else FirstKnown(AllReadings(obs, u), CostOf, Some(cost))
  }

  /** m is what the window says of device u: the job of the chosen mapping (none without
      one), and the device's peak and price. */
  ghost predicate MappedFrom(obs: seq<Observation>, u: string, r: Option<Mapping>, m: Mapping) {
    && ChosenMapping(AllMappingsFor(obs, u), r)
    && m.deviceUuid == u
    && m.jobId == (if r.Some? then r.value.jobId else "")
    && (if r.Some? then m.node == r.value.node else LastKnown(AllReadings(obs, u), NodeOf, Named(m.node)))
    && PeakFrom(obs, u, r, m.peakTflops) && CostFrom(obs, u, r, m.costPerHour)
  }

  ghost predicate Published(obs: seq<Observation>, m: Mapping) {
    exists r :: MappedFrom(obs, m.deviceUuid, r, m)
  }

  lemma ChosenIsOfDevice(obs: seq<Observation>, u: string, m: Mapping)
    requires ChosenMapping(AllMappingsFor(obs, u), Some(m))
    ensures m.deviceUuid == u
  {
    SelectMember(FlatMap(obs, AllMappings), ForDevice(u), m);
  }

  lemma PackMappingIsPublished(g: Gathered, obs: seq<Observation>, u: string)
    requires Summarizes(g, obs, u)
    ensures PackMapping(g, u).deviceUuid == u && Published(obs, PackMapping(g, u))
  {
    var r, m, w := Lookup(g.mappings, u), PackMapping(g, u), WindowOf(g, u);
    if r.Some? {
      ChosenIsOfDevice(obs, u, r.value);
    }
    MissingIsGap(g, obs, u, Mfu);
    MissingIsGap(g, obs, u, Cost);
    if w.peakKnown {
      assert FirstKnown(AllReadings(obs, u), PeakOf, Some(w.peakFlops));
    }
    assert MappedFrom(obs, u, r, m);
  }

  function MappedUuids(ms: seq<Mapping>): seq<string> {
    seq(|ms|, i requires 0 <= i < |ms| => ms[i].deviceUuid)
  }

  lemma {:induction false} PackListed(g: Gathered, us: seq<string>)
    ensures |FlatMap(us, PackMappings(g))| == |us|
    ensures forall i :: 0 <= i < |us| ==> FlatMap(us, PackMappings(g))[i] == PackMapping(g, us[i])
  {
    if us != [] {
      PackListed(g, us[..|us| - 1]);
    }
  }

  lemma MappingsListed(g: Gathered, obs: seq<Observation>, us: seq<string>, ms: seq<Mapping>)
    requires g == GatherAll(obs) && ms == FlatMap(us, PackMappings(g))
    ensures MappedUuids(ms) == us && forall m :: m in ms ==> Published(obs, m)
  {
    PackListed(g, us);
    forall i | 0 <= i < |us| ensures ms[i].deviceUuid == us[i] && Published(obs, ms[i]) {
      GatherSummarizes(obs, us[i]);
      PackMappingIsPublished(g, obs, us[i]);
    }
  }

  /** The window publishes one mapping per device, ascending, each with the device's job,
      peak and price as the observations have them. */
  lemma MappingsAreExact(agentId: string, now: int, window: int, obs: seq<Observation>, lib: Library, win: SignalWindow)
    requires Normalized(agentId, now, window, obs, lib) == Ok(win)
    ensures Sorts(MappedUuids(win.pack.mappings), win.devices.Keys, StrLeq)
    ensures forall m :: m in win.pack.mappings ==> Published(obs, m)
  {
    MappingsFromGathered(agentId, now, window, obs, lib, GatherAll(obs), win);
  }

  lemma MappingsFromGathered(agentId: string, now: int, window: int, obs: seq<Observation>, lib: Library,
                             g: Gathered, win: SignalWindow)
    requires win == WindowFor(agentId, now, window, g, win.jobs, lib) && g == GatherAll(obs)
    ensures Sorts(MappedUuids(win.pack.mappings), win.devices.Keys, StrLeq)
    ensures forall m :: m in win.pack.mappings ==> Published(obs, m)
  {
    StrLeqIsTotal();
    MappingsListed(g, obs, SortedUuids(g), win.pack.mappings);
  }

  // ---- namespaced provenance

  lemma ShortNamesHaveNoDot(s: SignalSource)
    ensures '.' !in SourceShort(s)
  {
  }

  /** Metadata keys collide only within one short source name. Sources outside the named
      ones share the name "unspecified", so theirs can. */
  lemma KeysCollideIff(s1: SignalSource, k1: string, s2: SignalSource, k2: string)
    ensures Namespaced(s1, k1) == Namespaced(s2, k2) <==> SourceShort(s1) == SourceShort(s2) && k1 == k2
  {
    ShortNamesHaveNoDot(s1);
    ShortNamesHaveNoDot(s2);
    var a, b := SourceShort(s1), SourceShort(s2);
    if Namespaced(s1, k1) == Namespaced(s2, k2) {
      FirstDotBounds(a, k1, b, k2);
      FirstDotBounds(b, k2, a, k1);
      assert Namespaced(s1, k1)[..|a|] == a && Namespaced(s2, k2)[..|b|] == b;
      assert Namespaced(s1, k1)[|a| + 1..] == k1 && Namespaced(s2, k2)[|b| + 1..] == k2;
    }
  }

  lemma FirstDotBounds(a: string, x: string, b: string, y: string)
    requires a + "." + x == b + "." + y && '.' !in b
    ensures |b| <= |a|
  {
    assert (a + "." + x)[|a|] == '.';
  }
}
