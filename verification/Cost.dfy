/** CostWedge (cost.go): the cost report of a window, over uninterpreted wedge
    functions of the semantics library. */
module Cost {
  import opened Prelude
  import opened Ordering
  import opened Normalize

  datatype Wedge = Wedge(uuid: string, mfu: real, wastedUsd: real, priced: bool)
  datatype JobImpact = JobImpact(jobId: string, usdWindow: real, devices: nat)
  datatype CostReport = CostReport(devices: seq<Wedge>, jobs: seq<JobImpact>)

  datatype Pricing = Pricing(
    deviceWedge: (DeviceSample, PeakAndCost) -> Result<Wedge, Error>,
    jobWedge: (string, seq<Wedge>, map<string, PeakAndCost>) -> JobImpact)

  function SpecOf(win: SignalWindow, u: string): PeakAndCost {
    if u in win.specs then win.specs[u] else PeakAndCost(0.0, 0.0)
  }

  function WedgeOf(win: SignalWindow, p: Pricing, u: string): Result<Wedge, Error>
    requires u in win.samples
  {
    p.deviceWedge(win.samples[u], SpecOf(win, u))
  }

  /** The wedges of the first devices, or the first error. */
  function Wedges(win: SignalWindow, p: Pricing, us: seq<string>): Result<map<string, Wedge>, Error>
    requires forall u :: u in us ==> u in win.samples
  {
    if us == [] then Ok(map[])
    else
      var n := |us| - 1;
      match Wedges(win, p, us[..n])
      case Err(e) => Err(e)
      case Ok(ws) =>
        match WedgeOf(win, p, us[n])
        case Err(e) => Err(e)
        case Ok(w) => Ok(ws[us[n] := w])
  }

  function Listed(ws: map<string, Wedge>): string -> seq<Wedge> {
    u => if u in ws then [ws[u]] else []
  }

  function DeviceWedges(ws: map<string, Wedge>): Device -> seq<Wedge> {
    (d: Device) => if d.uuid in ws then [ws[d.uuid]] else []
  }

  function JobSpecs(win: SignalWindow, ws: map<string, Wedge>, ds: seq<Device>): map<string, PeakAndCost> {
    map d | d in ds && d.uuid in ws :: d.uuid := SpecOf(win, d.uuid)
  }

  /** A job is priced over its devices that have a wedge, if any. */
  function JobImpacts(win: SignalWindow, p: Pricing, ws: map<string, Wedge>): JobDevices -> seq<JobImpact> {
    (j: JobDevices) =>
      var effs := FlatMap(j.devices, DeviceWedges(ws));
      if effs == [] then [] else [p.jobWedge(j.jobId, effs, JobSpecs(win, ws, j.devices))]
  }

  /** The sampled devices, in ascending order. */
  ghost function SampledUuids(win: SignalWindow): (us: seq<string>)
    ensures forall u :: u in us <==> u in win.samples
  {
    StrLeqIsTotal();
    var us := Ascending(win.samples.Keys, StrLeq);
    assert forall u :: u in us <==> u in Elements(us);
    us
  }

  ghost function CostReportOf(win: SignalWindow, p: Pricing): Result<CostReport, Error> {
    var us := SampledUuids(win);
    match Wedges(win, p, us)
    case Err(e) => Err(e)
    case Ok(ws) => Ok(CostReport(FlatMap(us, Listed(ws)), FlatMap(win.jobs, JobImpacts(win, p, ws))))
  }

  method CostWedge(win: SignalWindow, p: Pricing) returns (r: Result<CostReport, Error>)
    ensures r == CostReportOf(win, p)
  {
    StrLeqIsTotal();
    var us := SortedKeys(win.samples.Keys, StrLeq);
    assert forall u :: u in us ==> u in Elements(us);
    var priced := PriceDevices(win, p, us);
    if priced.Err? {
      return Err(priced.error);
    }
    var devices := ListWedges(us, priced.value);
    var jobs := AggregateJobs(win, p, priced.value);
    r := Ok(CostReport(devices, jobs));
  }

  method PriceDevices(win: SignalWindow, p: Pricing, us: seq<string>) returns (r: Result<map<string, Wedge>, Error>)
    requires forall u :: u in us ==> u in win.samples
    ensures r == Wedges(win, p, us)
  {
    var ws: map<string, Wedge> := map[];
    for i := 0 to |us|
      invariant Wedges(win, p, us[..i]) == Ok(ws)
    {
      assert us[..i + 1][..i] == us[..i];
      match WedgeOf(win, p, us[i]) {
        case Err(e) =>
          WedgeErrorPropagates(win, p, us, i + 1);
          return Err(e);
        case Ok(w) =>
          ws := ws[us[i] := w];
      }
    }
    assert us[..|us|] == us;
    r := Ok(ws);
  }

  method ListWedges(us: seq<string>, ws: map<string, Wedge>) returns (devices: seq<Wedge>)
    ensures devices == FlatMap(us, Listed(ws))
  {
    devices := [];
    for k := 0 to |us|
      invariant devices == FlatMap(us[..k], Listed(ws))
    {
      FlatMapStep(us, Listed(ws), k);
      if us[k] in ws {
        devices := devices + [ws[us[k]]];
      }
    }
    FlatMapWhole(us, Listed(ws));
  }

  lemma {:induction false} WedgeErrorPropagates(win: SignalWindow, p: Pricing, us: seq<string>, k: nat)
    requires forall u :: u in us ==> u in win.samples
    requires k <= |us| && Wedges(win, p, us[..k]).Err?
    ensures Wedges(win, p, us) == Wedges(win, p, us[..k])
    decreases |us| - k
  {
    if k == |us| {
      assert us[..k] == us;
    } else {
      assert us[..k + 1][..k] == us[..k];
      WedgeErrorPropagates(win, p, us, k + 1);
    }
  }

  method AggregateJobs(win: SignalWindow, p: Pricing, ws: map<string, Wedge>) returns (jobs: seq<JobImpact>)
    ensures jobs == FlatMap(win.jobs, JobImpacts(win, p, ws))
  {
    jobs := [];
    for k := 0 to |win.jobs|
      invariant jobs == FlatMap(win.jobs[..k], JobImpacts(win, p, ws))
    {
      FlatMapStep(win.jobs, JobImpacts(win, p, ws), k);
      var jd := win.jobs[k];
      var effs := [];
      for d := 0 to |jd.devices|
        invariant effs == FlatMap(jd.devices[..d], DeviceWedges(ws))
      {
        FlatMapStep(jd.devices, DeviceWedges(ws), d);
        if jd.devices[d].uuid !in ws {
          continue;
        }
        effs := effs + [ws[jd.devices[d].uuid]];
      }
      FlatMapWhole(jd.devices, DeviceWedges(ws));
      if effs == [] {
        continue;
      }
      jobs := jobs + [p.jobWedge(jd.jobId, effs, JobSpecs(win, ws, jd.devices))];
    }
    FlatMapWhole(win.jobs, JobImpacts(win, p, ws));
  }

  /** A window without measured devices has an empty report, whatever its jobs. */
  lemma NoSamplesNoCost(win: SignalWindow, p: Pricing)
    requires win.samples == map[]
    ensures CostReportOf(win, p) == Ok(CostReport([], []))
  {
    StrLeqIsTotal();
    NoElements(SampledUuids(win));
    NoJobs(win, p, win.jobs);
  }

  lemma {:induction false} NothingListed(ds: seq<Device>)
    ensures FlatMap(ds, DeviceWedges(map[])) == []
  {
    if ds != [] {
      NothingListed(ds[..|ds| - 1]);
    }
  }

  lemma {:induction false} NoJobs(win: SignalWindow, p: Pricing, js: seq<JobDevices>)
    ensures FlatMap(js, JobImpacts(win, p, map[])) == []
  {
    if js != [] {
      NothingListed(js[|js| - 1].devices);
      NoJobs(win, p, js[..|js| - 1]);
    }
  }

  // ---- what the report holds

  predicate Prices(win: SignalWindow, p: Pricing, u: string) {
    u in win.samples ==> WedgeOf(win, p, u).Ok?
  }

  lemma {:induction false} WedgesMean(win: SignalWindow, p: Pricing, us: seq<string>)
    requires forall u :: u in us ==> u in win.samples
    ensures var r := Wedges(win, p, us);
            && (r.Ok? <==> forall u :: u in us ==> Prices(win, p, u))
            && (r.Ok? ==> forall u :: u in r.value <==> u in us)
            && (r.Ok? ==> forall u :: u in us ==> WedgeOf(win, p, u) == Ok(r.value[u]))
  {
    if us != [] {
      var n := |us| - 1;
      WedgesMean(win, p, us[..n]);
      assert us == us[..n] + [us[n]];
      assert Prices(win, p, us[n]) <==> WedgeOf(win, p, us[n]).Ok?;
    }
  }

  lemma {:induction false} AllListed(us: seq<string>, ws: map<string, Wedge>)
    requires forall u :: u in us ==> u in ws
    ensures |FlatMap(us, Listed(ws))| == |us| && forall i :: 0 <= i < |us| ==> FlatMap(us, Listed(ws))[i] == ws[us[i]]
  {
    if us != [] {
      AllListed(us[..|us| - 1], ws);
    }
  }

  /** The error is that of the first device without a wedge. */
  lemma {:induction false} FirstError(win: SignalWindow, p: Pricing, us: seq<string>)
    requires forall u :: u in us ==> u in win.samples
    ensures var r := Wedges(win, p, us);
            r.Err? ==> exists i: nat :: FailsAt(win, p, us, i, r.error)
  {
    if us != [] {
      var n := |us| - 1;
      FirstError(win, p, us[..n]);
      WedgesMean(win, p, us[..n]);
      if Wedges(win, p, us[..n]).Err? {
        var i: nat :| FailsAt(win, p, us[..n], i, Wedges(win, p, us[..n]).error);
        forall j | 0 <= j < i ensures Priceable(win, p, us[j]) {
          assert us[j] == us[..n][j];
        }
        assert FailsAt(win, p, us, i, Wedges(win, p, us).error);
      } else if Wedges(win, p, us).Err? {
        forall j | 0 <= j < n ensures Priceable(win, p, us[j]) {
          assert us[j] in us[..n];
          assert Prices(win, p, us[j]);
        }
        assert FailsAt(win, p, us, n, Wedges(win, p, us).error);
      }
    }
  }

  /** The i-th device is the first without a wedge, for e. */
  ghost predicate FailsAt(win: SignalWindow, p: Pricing, us: seq<string>, i: nat, e: Error) {
    && i < |us| && Fails(win, p, us[i], e)
    && forall j :: 0 <= j < i ==> Priceable(win, p, us[j])
  }

  /** us lists the sampled devices, once each, in ascending order. */
  ghost predicate AreSampled(win: SignalWindow, us: seq<string>) {
    && (forall i, j :: 0 <= i < j < |us| ==> StrLeq(us[i], us[j]) && us[i] != us[j])
    && (forall u :: u in us <==> u in win.samples)
  }

  /** A report exists iff every sampled device can be priced, and then lists exactly these
      devices, once each, in ascending order, each at its own sample and spec; otherwise the
      error is that of the first that cannot. */
  lemma ReportIsExact(win: SignalWindow, p: Pricing)
    ensures var r, us := CostReportOf(win, p), SampledUuids(win);
            && AreSampled(win, us)
            && (r.Ok? <==> forall u :: u in win.samples ==> Priceable(win, p, u))
            && (r.Ok? ==> |r.value.devices| == |us|
                          && forall i :: 0 <= i < |us| ==> Costs(win, p, us[i], r.value.devices[i]))
            && (r.Err? ==> exists i: nat :: FailsAt(win, p, us, i, r.error))
  {
    StrLeqIsTotal();
    var us := SampledUuids(win);
    WedgesMean(win, p, us);
    FirstError(win, p, us);
    forall u | u in us ensures Prices(win, p, u) <==> Priceable(win, p, u) {
    }
    var ws := Wedges(win, p, us);
    if ws.Ok? {
      AllListed(us, ws.value);
    }
  }

  // ---- which jobs it lists

  function In(us: set<string>): Device -> bool { (d: Device) => d.uuid in us }

  /** A job with a sampled device. */
  predicate HasSampled(us: set<string>, j: JobDevices) {
    exists d :: d in j.devices && d.uuid in us
  }

  function Sampled(us: set<string>): JobDevices -> bool { (j: JobDevices) => HasSampled(us, j) }

  /** The wedges of a job are those of its sampled devices, in their order. */
  lemma {:induction false} WedgesOfJob(ws: map<string, Wedge>, ds: seq<Device>)
    ensures var own, effs := Select(ds, In(ws.Keys)), FlatMap(ds, DeviceWedges(ws));
            |effs| == |own| && forall k :: 0 <= k < |own| ==> own[k].uuid in ws && effs[k] == ws[own[k].uuid]
  {
    if ds != [] {
      WedgesOfJob(ws, ds[..|ds| - 1]);
    }
  }

  lemma {:induction false} JobPricedIff(ws: map<string, Wedge>, ds: seq<Device>)
    ensures FlatMap(ds, DeviceWedges(ws)) != [] <==> exists d :: d in ds && d.uuid in ws
  {
    if ds != [] {
      var n := |ds| - 1;
      JobPricedIff(ws, ds[..n]);
      assert ds == ds[..n] + [ds[n]];
    }
  }

  function ImpactOf(win: SignalWindow, p: Pricing, ws: map<string, Wedge>, j: JobDevices): JobImpact {
    p.jobWedge(j.jobId, FlatMap(j.devices, DeviceWedges(ws)), JobSpecs(win, ws, j.devices))
  }

  lemma OneJob(win: SignalWindow, p: Pricing, ws: map<string, Wedge>, j: JobDevices)
    ensures JobImpacts(win, p, ws)(j) == if HasSampled(ws.Keys, j) then [ImpactOf(win, p, ws, j)] else []
  {
    JobPricedIff(ws, j.devices);
  }

  lemma {:induction false} JobsListed(win: SignalWindow, p: Pricing, ws: map<string, Wedge>, js: seq<JobDevices>)
    ensures var kept, out := Select(js, Sampled(ws.Keys)), FlatMap(js, JobImpacts(win, p, ws));
            |out| == |kept| && forall i :: 0 <= i < |kept| ==> out[i] == ImpactOf(win, p, ws, kept[i])
  {
    if js != [] {
      JobsListed(win, p, ws, js[..|js| - 1]);
      OneJob(win, p, ws, js[|js| - 1]);
    }
  }

  /** The impact of job j: priced over its sampled devices in their order, each with its own
      wedge, at their own specs. */
  ghost predicate PricedJob(win: SignalWindow, p: Pricing, j: JobDevices, impact: JobImpact) {
    exists effs: seq<Wedge> :: WedgesAre(win, p, Select(j.devices, In(win.samples.Keys)), effs)
      && impact == p.jobWedge(j.jobId, effs, SpecsOf(win, j.devices))
  }

  ghost predicate WedgesAre(win: SignalWindow, p: Pricing, own: seq<Device>, effs: seq<Wedge>) {
    && |effs| == |own|
    && forall k :: 0 <= k < |own| ==> Costs(win, p, own[k].uuid, effs[k])
  }

  /** Device u is sampled and its wedge is w, at its spec or, if it has none, at no peak and
      no price. */
  predicate Costs(win: SignalWindow, p: Pricing, u: string, w: Wedge) {
    && u in win.samples
    && p.deviceWedge(win.samples[u], if u in win.specs then win.specs[u] else PeakAndCost(0.0, 0.0)) == Ok(w)
  }

  predicate Priceable(win: SignalWindow, p: Pricing, u: string) {
    && u in win.samples
    && p.deviceWedge(win.samples[u], if u in win.specs then win.specs[u] else PeakAndCost(0.0, 0.0)).Ok?
  }

  /** Device u is sampled and its wedge cannot be computed. */
  predicate Fails(win: SignalWindow, p: Pricing, u: string, e: Error) {
    && u in win.samples
    && p.deviceWedge(win.samples[u], if u in win.specs then win.specs[u] else PeakAndCost(0.0, 0.0)) == Err(e)
  }

  function SpecsOf(win: SignalWindow, ds: seq<Device>): map<string, PeakAndCost> {
    map d | d in ds && d.uuid in win.samples ::
      d.uuid := if d.uuid in win.specs then win.specs[d.uuid] else PeakAndCost(0.0, 0.0)
  }

  lemma ImpactIsPriced(win: SignalWindow, p: Pricing, ws: map<string, Wedge>, j: JobDevices)
    requires ws.Keys == win.samples.Keys && forall u :: u in ws ==> WedgeOf(win, p, u) == Ok(ws[u])
    ensures PricedJob(win, p, j, ImpactOf(win, p, ws, j))
  {
    WedgesOfJob(ws, j.devices);
    assert JobSpecs(win, ws, j.devices) == SpecsOf(win, j.devices);
    assert WedgesAre(win, p, Select(j.devices, In(win.samples.Keys)), FlatMap(j.devices, DeviceWedges(ws)));
  }

  /** The report lists, in the window's order, exactly the jobs with a sampled device. */
  lemma JobsAreExact(win: SignalWindow, p: Pricing)
    ensures var r, js := CostReportOf(win, p), Select(win.jobs, Sampled(win.samples.Keys));
            r.Ok? ==> |r.value.jobs| == |js| && forall i :: 0 <= i < |js| ==> PricedJob(win, p, js[i], r.value.jobs[i])
  {
    var us := SampledUuids(win);
    WedgesMean(win, p, us);
    var r := Wedges(win, p, us);
    if r.Ok? {
      var ws := r.value;
      assert ws.Keys == win.samples.Keys;
      JobsListed(win, p, ws, win.jobs);
      var js := Select(win.jobs, Sampled(ws.Keys));
      forall i | 0 <= i < |js| ensures PricedJob(win, p, js[i], ImpactOf(win, p, ws, js[i])) {
        ImpactIsPriced(win, p, ws, js[i]);
      }
    }
  }
}
