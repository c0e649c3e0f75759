/** What the rest of the window is made from (normalize.go): the job edges handed to the
    mapping resolver, and the provenance. */
module WindowInputs {
  import opened Prelude
  import opened Ordering
  import opened Evidence
  import opened Legs
  import opened Gather
  import opened Normalize
  import opened Provenance
  import opened WindowFacts
  import CounterLegs

  // ---- job edges

  /** Some observation has a window of device u. */
  ghost predicate HasWindow(obs: seq<Observation>, u: string) {
    exists w :: w in FlatMap(obs, AllWindows) && w.uuid == u
  }

  /** The device's mapping names this job. */
  ghost predicate HasJob(obs: seq<Observation>, u: string, job: string) {
    job != "" && exists m :: ChosenMapping(AllMappingsFor(obs, u), Some(m)) && m.jobId == job
  }

  ghost predicate IsEdge(obs: seq<Observation>, e: DeviceJob) {
    HasWindow(obs, e.device.uuid) && HasJob(obs, e.device.uuid, e.jobId) && IdentifiedFrom(obs, e.device.uuid, e.device)
  }

  function EdgeUuids(es: seq<DeviceJob>): seq<string> {
    seq(|es|, i requires 0 <= i < |es| => es[i].device.uuid)
  }

  /** es has one edge for each device that has a window and a job, ascending, with the
      device's last supplied identity. */
  ghost predicate AreEdges(obs: seq<Observation>, es: seq<DeviceJob>) {
    && StrictlySorted(EdgeUuids(es), StrLeq)
    && (forall e :: e in es ==> IsEdge(obs, e))
    && forall u, job :: HasWindow(obs, u) && HasJob(obs, u, job) ==> u in EdgeUuids(es)
  }

  /** es is what device u contributes: its edge, if it has a job. */
  ghost predicate Contributes(es: seq<DeviceJob>, obs: seq<Observation>, u: string) {
    && |es| <= 1
    && (es != [] ==> IsEdge(obs, es[0]) && es[0].device.uuid == u)
    && forall job :: HasJob(obs, u, job) ==> es != []
  }

  lemma EdgeOf(g: Gathered, obs: seq<Observation>, u: string)
    requires g == GatherAll(obs) && u in g.windows
    ensures Contributes(Edges(g)(u), obs, u)
  {
    GatherSummarizes(obs, u);
    SampleIdentity(g, obs, u);
    EdgeHasJob(g, obs, u);
  }

  lemma WindowsKnown(g: Gathered, obs: seq<Observation>, u: string)
    requires g == GatherAll(obs)
    ensures u in g.windows <==> HasWindow(obs, u)
  {
    MergeIsPerDevice(obs, u);
  }

  lemma EdgeHasJob(g: Gathered, obs: seq<Observation>, u: string)
    requires ChosenMapping(AllMappingsFor(obs, u), Lookup(g.mappings, u))
    ensures Edges(g)(u) != [] ==> HasJob(obs, u, Edges(g)(u)[0].jobId)
    ensures forall job :: HasJob(obs, u, job) ==> Edges(g)(u) != []
  {
    var r := Lookup(g.mappings, u);
    forall job | HasJob(obs, u, job) ensures Edges(g)(u) != [] {
      var m :| ChosenMapping(AllMappingsFor(obs, u), Some(m)) && m.jobId == job;
      ChosenIsUnique(AllMappingsFor(obs, u), Some(m), r);
    }
  }

  lemma ChosenIsUnique(ms: seq<Mapping>, r1: Option<Mapping>, r2: Option<Mapping>)
    requires ChosenMapping(ms, r1) && ChosenMapping(ms, r2)
    ensures r1 == r2
  {
    if r1.Some? && r2.Some? && r1.value.jobId != "" && r2.value.jobId != "" {
      var i :| 0 <= i < |ms| && ms[i] == r1.value && forall j :: 0 <= j < i ==> ms[j].jobId == "";
      var k :| 0 <= k < |ms| && ms[k] == r2.value && forall j :: 0 <= j < k ==> ms[j].jobId == "";
      assert !(i < k) && !(k < i);
    }
  }

  /** Edges of the devices us, so far. */
  ghost predicate EdgesOver(obs: seq<Observation>, us: seq<string>, es: seq<DeviceJob>) {
    && StrictlySorted(EdgeUuids(es), StrLeq)
    && (forall e :: e in es ==> IsEdge(obs, e))
    && (forall x :: x in EdgeUuids(es) ==> x in us)
    && forall u, job :: u in us && HasJob(obs, u, job) ==> u in EdgeUuids(es)
  }

  lemma EdgesSnoc(obs: seq<Observation>, us: seq<string>, u: string, es: seq<DeviceJob>, more: seq<DeviceJob>)
    requires EdgesOver(obs, us, es) && StrictlySorted(us + [u], StrLeq) && Contributes(more, obs, u)
    ensures EdgesOver(obs, us + [u], es + more)
  {
    if more == [] {
      assert es + more == es;
    } else {
      assert EdgeUuids(es + more) == EdgeUuids(es) + [u];
      CounterLegs.SortedSnoc(EdgeUuids(es), us, u);
    }
  }

  lemma {:induction false} EdgesOfDevices(f: string -> seq<DeviceJob>, obs: seq<Observation>, us: seq<string>)
    requires StrictlySorted(us, StrLeq) && forall u :: u in us ==> Contributes(f(u), obs, u)
    ensures EdgesOver(obs, us, FlatMap(us, f))
  {
    if us != [] {
      var n := |us| - 1;
      EdgesOfDevices(f, obs, us[..n]);
      EdgesSnoc(obs, us[..n], us[n], FlatMap(us[..n], f), f(us[n]));
      assert us == us[..n] + [us[n]];
    }
  }

  lemma EdgesOfWindow(g: Gathered, obs: seq<Observation>, us: seq<string>)
    requires g == GatherAll(obs) && Lists(us, g) && StrictlySorted(us, StrLeq)
    ensures AreEdges(obs, FlatMap(us, Edges(g)))
  {
    forall u | u in us ensures Contributes(Edges(g)(u), obs, u) {
      EdgeOf(g, obs, u);
    }
    EdgesOfDevices(Edges(g), obs, us);
    forall u ensures u in us <==> HasWindow(obs, u) {
      WindowsKnown(g, obs, u);
    }
  }

  /** The resolver is given exactly the job edges, and its answer is the window's. */
  lemma JobsAreResolved(agentId: string, now: int, window: int, obs: seq<Observation>, lib: Library)
    returns (edges: seq<DeviceJob>)
    ensures AreEdges(obs, edges)
    ensures var r := Normalized(agentId, now, window, obs, lib);
            match lib.resolveMapping(edges)
            case Ok(jobs) => r.Ok? && r.value.jobs == jobs
            case Err(e) => r == Err(Error("agent: resolve device->job mapping: " + e.msg, e.capped))
  {
    var g := GatherAll(obs);
    edges := FlatMap(SortedUuids(g), Edges(g));
    StrLeqIsTotal();
    SortedUuidsList(g);
    EdgesOfWindow(g, obs, SortedUuids(g));
  }

  // ---- devices, header and raw parts

  /** ds knows device u iff there is a window of it, and then by its last supplied identity. */
  ghost predicate KnowsDevice(ds: map<string, Device>, obs: seq<Observation>, u: string) {
    && (u in ds <==> HasWindow(obs, u))
    && (u in ds ==> IdentifiedFrom(obs, u, ds[u]))
  }

  lemma DevicesKnown(g: Gathered, obs: seq<Observation>, u: string)
    requires g == GatherAll(obs)
    ensures KnowsDevice(Where(g, g.windows.Keys, AnyWindow, DeviceOf), obs, u)
  {
    WindowsKnown(g, obs, u);
    GatherSummarizes(obs, u);
    SampleIdentity(g, obs, u);
  }

  /** The window knows exactly the devices of which there is a window. */
  lemma DevicesAreExact(agentId: string, now: int, window: int, obs: seq<Observation>, lib: Library, win: SignalWindow,
                        u: string)
    requires Normalized(agentId, now, window, obs, lib) == Ok(win)
    ensures KnowsDevice(win.devices, obs, u)
  {
    DevicesKnown(GatherAll(obs), obs, u);
  }

  lemma RawParts(g: Gathered, obs: seq<Observation>)
    requires g == GatherAll(obs)
    ensures g.dcgmSeries == FlatMap(obs, (o: Observation) => o.dcgmSeries)
    ensures g.xidEvents == FlatMap(obs, (o: Observation) => o.xidEvents)
    ensures g.ncclEvents == FlatMap(obs, (o: Observation) => o.ncclEvents)
  {
    FlatMapCongruence(obs, AllSeries, (o: Observation) => o.dcgmSeries);
    FlatMapCongruence(obs, AllXids, (o: Observation) => o.xidEvents);
    FlatMapCongruence(obs, AllNccls, (o: Observation) => o.ncclEvents);
  }

  /** The series and events of all sources are passed on whole, in order. */
  lemma RawPartsAreKept(agentId: string, now: int, window: int, obs: seq<Observation>, lib: Library, win: SignalWindow)
    requires Normalized(agentId, now, window, obs, lib) == Ok(win)
    ensures win.pack.dcgmSeries == FlatMap(obs, (o: Observation) => o.dcgmSeries)
    ensures win.pack.xidEvents == FlatMap(obs, (o: Observation) => o.xidEvents)
    ensures win.pack.ncclEvents == FlatMap(obs, (o: Observation) => o.ncclEvents)
  {
    RawParts(GatherAll(obs), obs);
  }

  /** The pack names the agent and the window's bounds, and its provenance holds the agent's
      three stamps besides what the observations state. */
  lemma HeaderIsExact(agentId: string, now: int, window: int, obs: seq<Observation>, lib: Library, win: SignalWindow)
    requires Normalized(agentId, now, window, obs, lib) == Ok(win)
    ensures win.pack.agentId == agentId
    ensures win.pack.windowStart == win.start == now - window && win.pack.windowEnd == win.end == now
    ensures Stamps(win.pack.provenance, "v1", lib.formatSeconds(window), Decimal(|win.degraded|))
    ensures AgreeBesides(win.pack.provenance, FoldLeft(Stamped, map[], obs))
  {
    HeaderFromGathered(agentId, now, window, lib, GatherAll(obs), win);
  }

  lemma HeaderFromGathered(agentId: string, now: int, window: int, lib: Library, g: Gathered, win: SignalWindow)
    requires win == WindowFor(agentId, now, window, g, win.jobs, lib)
    ensures win.pack.agentId == agentId
    ensures win.pack.windowStart == win.start == now - window && win.pack.windowEnd == win.end == now
    ensures Stamps(win.pack.provenance, "v1", lib.formatSeconds(window), Decimal(|win.degraded|))
    ensures AgreeBesides(win.pack.provenance, g.provenance)
  {
    StampKeys(g.provenance, lib.formatSeconds(window), Decimal(|win.degraded|));
  }

  predicate Stamps(p: map<string, string>, version: string, seconds: string, marks: string) {
    && "agent.contract_version" in p && p["agent.contract_version"] == version
    && "agent.window_seconds" in p && p["agent.window_seconds"] == seconds
    && "agent.degraded_marks" in p && p["agent.degraded_marks"] == marks
  }

  /** The two agree on all but the agent's three stamps. */
  ghost predicate AgreeBesides(p: map<string, string>, q: map<string, string>) {
    forall name :: name !in {"agent.contract_version", "agent.window_seconds", "agent.degraded_marks"} ==>
                     if name in q then name in p && p[name] == q[name] else name !in p
  }

  lemma StampKeys(q: map<string, string>, seconds: string, marks: string)
    ensures var p := q + map["agent.contract_version" := "v1", "agent.window_seconds" := seconds,
                             "agent.degraded_marks" := marks];
            Stamps(p, "v1", seconds, marks) && AgreeBesides(p, q)
  {
    assert "agent.contract_version"[6] == 'c' && "agent.window_seconds"[6] == 'w' && "agent.degraded_marks"[6] == 'd';
  }

  // ---- provenance

  /** The short names under which sources appear. */
  lemma ShortNames()
    ensures SourceShort(DCGM) == "dcgm" && SourceShort(DMESG_XID) == "dmesg" && SourceShort(NCCL) == "nccl"
    ensures SourceShort(PROMETHEUS) == "prometheus" && SourceShort(SCHEDULER) == "scheduler" && SourceShort(PROC) == "proc"
    ensures forall s :: s !in {DCGM, DMESG_XID, NCCL, PROMETHEUS, SCHEDULER, PROC} ==> SourceShort(s) == "unspecified"
  {
  }

  /** The k-th observation is the last to state key under its source's name. */
  ghost predicate LastStates(obs: seq<Observation>, name: string, k: nat, key: string) {
    && k < |obs| && key in obs[k].provenance && SourceShort(obs[k].source) + "." + key == name
    && forall j, x :: k < j < |obs| && x in obs[j].provenance ==> SourceShort(obs[j].source) + "." + x != name
  }

  lemma {:induction false} LastStatementWins(obs: seq<Observation>, k: nat, key: string, name: string)
    requires LastStates(obs, name, k, key)
    ensures var t := FoldLeft(Stamped, map[], obs); name in t && t[name] == obs[k].provenance[key]
  {
    var n := |obs| - 1;
    var front := FoldLeft(Stamped, map[], obs[..n]);
    NamespacedInjective(obs[n].source);
    if k < n {
      assert forall x :: x in obs[n].provenance ==> SourceShort(obs[n].source) + "." + x != name;
      LastStatementWins(obs[..n], k, key, name);
    } else {
      assert Namespaced(obs[n].source, key) == name;
      assert name in NamespacedPart(obs[n], obs[n].provenance.Keys);
    }
  }

  /** Nothing else is stated. */
  lemma {:induction false} StatedBySomeone(obs: seq<Observation>, name: string)
    requires name in FoldLeft(Stamped, map[], obs)
    ensures exists o, key :: o in obs && key in o.provenance && SourceShort(o.source) + "." + key == name
  {
    var n := |obs| - 1;
    NamespacedInjective(obs[n].source);
    if name in NamespacedPart(obs[n], obs[n].provenance.Keys) {
      var key :| key in obs[n].provenance && Namespaced(obs[n].source, key) == name;
      assert obs[n] in obs && SourceShort(obs[n].source) + "." + key == name;
    } else {
      StatedBySomeone(obs[..n], name);
    }
  }
}
