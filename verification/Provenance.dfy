/** What Normalize promises about any list of observations: no leg without a
    witness of its own source, no value invented, no gap left unmarked. */
module Provenance {
  import opened Prelude
  import opened Ordering
  import opened Evidence
  import opened Merge
  import opened Legs
  import opened Gather
  import opened Normalize

  // ---- the gathered tables, stated over the flat list of readings

  function HasUuid(u: string): DeviceWindow -> bool {
    (w: DeviceWindow) => w.uuid == u
  }

  function AllReadings(obs: seq<Observation>, u: string): seq<DeviceWindow> {
    Select(FlatMap(obs, AllWindows), HasUuid(u))
  }

  lemma {:induction false} TableOfReadings(ws: seq<DeviceWindow>, u: string)
    ensures var t := FoldLeft(TableAfter, map[], ws);
            && (u in t <==> exists w :: w in ws && w.uuid == u)
            && Or(t, u, Blank(u)) == Fold(Blank(u), Select(ws, HasUuid(u)))
  {
    if ws != [] {
      var n := |ws| - 1;
      TableOfReadings(ws[..n], u);
      assert ws == ws[..n] + [ws[n]];
      var before := Select(ws[..n], HasUuid(u));
      if ws[n].uuid == u {
        FoldStep(Blank(u), before, ws[n]);
      } else {
        assert before + [] == before;
      }
    }
  }

  /** The interleaved fold over all devices is, per device, the first-known and
      last-supplied readings of that device alone. */
  lemma MergeIsPerDevice(obs: seq<Observation>, u: string)
    ensures var g := GatherAll(obs);
            && (u in g.windows <==> exists w :: w in FlatMap(obs, AllWindows) && w.uuid == u)
            && WindowOf(g, u).uuid == u
            && IsMergeOf(AllReadings(obs, u), WindowOf(g, u))
            && UnknownIsZero(WindowOf(g, u))
  {
    FoldLeftOfFlatMap(TableAfter, map[], obs, AllWindows, WindowsAfter);
    TableOfReadings(FlatMap(obs, AllWindows), u);
    FoldRefinesFirstAndLast(u, AllReadings(obs, u));
  }

  function AllMappingsFor(obs: seq<Observation>, u: string): seq<Mapping> {
    Select(FlatMap(obs, AllMappings), ForDevice(u))
  }

  function ForDevice(u: string): Mapping -> bool {
    (m: Mapping) => m.deviceUuid == u
  }

  /** r is the first mapping that names a job, or else the last one. */
  ghost predicate ChosenMapping(ms: seq<Mapping>, r: Option<Mapping>) {
    match r
    case None => ms == []
    case Some(m) =>
      if m.jobId != "" then
        exists i :: 0 <= i < |ms| && ms[i] == m && forall j :: 0 <= j < i ==> ms[j].jobId == ""
      else ms != [] && m == ms[|ms| - 1] && forall j :: 0 <= j < |ms| ==> ms[j].jobId == ""
  }

  function Lookup<T>(t: map<string, T>, u: string): Option<T> {
    if u in t then Some(t[u]) else None
  }

  lemma {:induction false} MappingTableOf(ms: seq<Mapping>, u: string)
    ensures ChosenMapping(Select(ms, ForDevice(u)), Lookup(FoldLeft(MappingAfter, map[], ms), u))
  {
    if ms != [] {
      var n := |ms| - 1;
      MappingTableOf(ms[..n], u);
      var before, r := Select(ms[..n], ForDevice(u)), Lookup(FoldLeft(MappingAfter, map[], ms[..n]), u);
      if ms[n].deviceUuid == u {
        var all := before + [ms[n]];
        assert forall j :: 0 <= j < |before| ==> all[j] == before[j];
        if r.Some? && r.value.jobId != "" {
          var i :| 0 <= i < |before| && before[i] == r.value && forall j :: 0 <= j < i ==> before[j].jobId == "";
          assert all[i] == r.value;
        } else {
          assert all[|before|] == ms[n];
        }
      } else {
        assert before + [] == before;
      }
    }
  }

  /** A device's job is the first one any source names. */
  lemma MappingIsFirstWithJob(obs: seq<Observation>, u: string)
    ensures ChosenMapping(AllMappingsFor(obs, u), Lookup(GatherAll(obs).mappings, u))
  {
    FoldLeftOfFlatMap(MappingAfter, map[], obs, AllMappings, MappingsAfter);
    MappingTableOf(FlatMap(obs, AllMappings), u);
  }

  // ---- which source saw a counter move

  ghost predicate SawIn(ws: seq<DeviceWindow>, hit: DeviceWindow -> bool, u: string) {
    exists w :: w in ws && hit(w) && w.uuid == u
  }

  ghost predicate Saw(obs: seq<Observation>, s: SignalSource, hit: DeviceWindow -> bool, u: string) {
    exists o :: o in obs && o.source == s && SawIn(o.deviceWindows, hit, u)
  }

  lemma {:induction false} SeenInMeans(seen: Seen, s: SignalSource, ws: seq<DeviceWindow>, u: string)
    ensures var r := FoldLeft(SeenAfter(s), seen, ws);
            && (u in r.eccDcgm <==> u in seen.eccDcgm || (s == DCGM && SawIn(ws, EccHit, u)))
            && (u in r.eccProm <==> u in seen.eccProm || (s == PROMETHEUS && SawIn(ws, EccHit, u)))
            && (u in r.linkDcgm <==> u in seen.linkDcgm || (s == DCGM && SawIn(ws, LinkHit, u)))
  {
    if ws != [] {
      var n := |ws| - 1;
      SeenInMeans(seen, s, ws[..n], u);
      assert forall w :: w in ws <==> w in ws[..n] || w == ws[n];
    }
  }

  lemma {:induction false} SeenMeans(obs: seq<Observation>, u: string)
    ensures var seen := GatherAll(obs).seen;
            && (u in seen.eccDcgm <==> Saw(obs, DCGM, EccHit, u))
            && (u in seen.eccProm <==> Saw(obs, PROMETHEUS, EccHit, u))
            && (u in seen.linkDcgm <==> Saw(obs, DCGM, LinkHit, u))
  {
    if obs != [] {
      var n := |obs| - 1;
      SeenMeans(obs[..n], u);
      SeenInMeans(GatherAll(obs[..n]).seen, obs[n].source, obs[n].deviceWindows, u);
      assert forall o :: o in obs <==> o in obs[..n] || o == obs[n];
    }
  }

  // ---- the first pass, summed up for one device

  /** What g records about device u is what obs say about it. */
  ghost predicate Summarizes(g: Gathered, obs: seq<Observation>, u: string) {
    && (u in g.windows <==> exists w :: w in FlatMap(obs, AllWindows) && w.uuid == u)
    && WindowOf(g, u).uuid == u
    && IsMergeOf(AllReadings(obs, u), WindowOf(g, u))
    && UnknownIsZero(WindowOf(g, u))
    && ChosenMapping(AllMappingsFor(obs, u), Lookup(g.mappings, u))
    && (u in g.seen.eccDcgm <==> Saw(obs, DCGM, EccHit, u))
    && (u in g.seen.eccProm <==> Saw(obs, PROMETHEUS, EccHit, u))
    && (u in g.seen.linkDcgm <==> Saw(obs, DCGM, LinkHit, u))
  }

  lemma GatherSummarizes(obs: seq<Observation>, u: string)
    ensures Summarizes(GatherAll(obs), obs, u)
  {
    MergeIsPerDevice(obs, u);
    MappingIsFirstWithJob(obs, u);
    SeenMeans(obs, u);
  }

  // ---- counter legs, exactly

  /** The first known reading of a counter of device u, from any source, is positive. */
  ghost predicate FirstPositive(obs: seq<Observation>, u: string, read: DeviceWindow -> Option<nat>) {
    exists n: nat :: n > 0 && FirstKnown(AllReadings(obs, u), read, Some(n))
  }

  ghost predicate FirstEccPositive(obs: seq<Observation>, u: string) { FirstPositive(obs, u, EccOf) }
  ghost predicate FirstLinkPositive(obs: seq<Observation>, u: string) { FirstPositive(obs, u, LinkOf) }

  /** The source an ECC leg is attributed to: DCGM if it saw the counter move, else
      Prometheus if it did. */
  ghost predicate EccSource(obs: seq<Observation>, u: string, s: SignalSource) {
    if Saw(obs, DCGM, EccHit, u) then s == DCGM else s == PROMETHEUS && Saw(obs, PROMETHEUS, EccHit, u)
  }

  lemma FirstEccIsHit(g: Gathered, obs: seq<Observation>, u: string)
    requires FirstKnown(AllReadings(obs, u), EccOf, EccOf(WindowOf(g, u)))
    ensures EccHit(WindowOf(g, u)) <==> FirstEccPositive(obs, u)
  {
    var ws, w := AllReadings(obs, u), WindowOf(g, u);
    if n: nat :| n > 0 && FirstKnown(ws, EccOf, Some(n)) {
      FirstKnownUnique(ws, EccOf, Some(n), EccOf(w));
    }
    assert EccHit(w) ==> EccOf(w) == Some(w.eccErrs);
  }

  lemma FirstLinkIsHit(g: Gathered, obs: seq<Observation>, u: string)
    requires FirstKnown(AllReadings(obs, u), LinkOf, LinkOf(WindowOf(g, u)))
    ensures LinkHit(WindowOf(g, u)) <==> FirstLinkPositive(obs, u)
  {
    var ws, w := AllReadings(obs, u), WindowOf(g, u);
    if n: nat :| n > 0 && FirstKnown(ws, LinkOf, Some(n)) {
      FirstKnownUnique(ws, LinkOf, Some(n), LinkOf(w));
    }
    assert LinkHit(w) ==> LinkOf(w) == Some(w.linkErrs);
  }

  /** The counters of device u in g, in terms of the observations. */
  ghost predicate Counts(g: Gathered, obs: seq<Observation>, u: string) {
    && (EccHit(WindowOf(g, u)) <==> FirstEccPositive(obs, u))
    && (LinkHit(WindowOf(g, u)) <==> FirstLinkPositive(obs, u))
    && (u in g.seen.eccDcgm <==> Saw(obs, DCGM, EccHit, u))
    && (u in g.seen.eccProm <==> Saw(obs, PROMETHEUS, EccHit, u))
    && (u in g.seen.linkDcgm <==> Saw(obs, DCGM, LinkHit, u))
  }

  lemma GatherCounts(obs: seq<Observation>, u: string)
    ensures Counts(GatherAll(obs), obs, u)
  {
    var g := GatherAll(obs);
    SeenMeans(obs, u);
    MergeIsPerDevice(obs, u);
    FirstEccIsHit(g, obs, u);
    FirstLinkIsHit(g, obs, u);
  }

  /** us lists the gathered devices, in whatever order. */
  ghost predicate Lists(us: seq<string>, g: Gathered) {
    forall u :: u in us <==> u in g.windows
  }

  lemma SortedUuidsList(g: Gathered)
    ensures Lists(SortedUuids(g), g)
  {
    StrLeqIsTotal();
    assert forall u :: u in SortedUuids(g) <==> u in Elements(SortedUuids(g));
  }

  /** ds lists the devices that carry an ECC leg, with its source. */
  ghost predicate EccListed(ds: seq<EccDevice>, g: Gathered) {
    forall u, s :: EccDevice(u, s) in ds
              <==> EccHit(WindowOf(g, u))
                   && if u in g.seen.eccDcgm then s == DCGM else s == PROMETHEUS && u in g.seen.eccProm
  }

  ghost predicate LinkListed(ds: seq<string>, g: Gathered) {
    forall u :: u in ds <==> LinkHit(WindowOf(g, u)) && u in g.seen.linkDcgm
  }

  lemma CounterListings(g: Gathered, us: seq<string>)
    requires Lists(us, g)
    ensures EccListed(FlatMap(us, EccDevices(g)), g)
    ensures LinkListed(FlatMap(us, LinkDevices(g)), g)
  {
    forall u, s ensures EccDevice(u, s) in FlatMap(us, EccDevices(g))
        <==> EccHit(WindowOf(g, u))
             && if u in g.seen.eccDcgm then s == DCGM else s == PROMETHEUS && u in g.seen.eccProm
    {
      EccDeviceMember(g, us, u, s);
    }
    forall u ensures u in FlatMap(us, LinkDevices(g)) <==> LinkHit(WindowOf(g, u)) && u in g.seen.linkDcgm {
      LinkDeviceMember(g, us, u);
    }
  }

  lemma EccDeviceMember(g: Gathered, us: seq<string>, u: string, s: SignalSource)
    requires Lists(us, g)
    ensures EccDevice(u, s) in FlatMap(us, EccDevices(g))
       <==> && EccHit(WindowOf(g, u))
            && (if u in g.seen.eccDcgm then s == DCGM else s == PROMETHEUS && u in g.seen.eccProm)
  {
    FlatMapMember(us, EccDevices(g), EccDevice(u, s));
    if EccHit(WindowOf(g, u)) {
      var i :| 0 <= i < |us| && us[i] == u;
      assert EccDevice(u, s) in EccDevices(g)(u) <==> EccDevice(u, s) in EccDevices(g)(us[i]);
    }
  }

  lemma LinkDeviceMember(g: Gathered, us: seq<string>, u: string)
    requires Lists(us, g)
    ensures u in FlatMap(us, LinkDevices(g)) <==> LinkHit(WindowOf(g, u)) && u in g.seen.linkDcgm
  {
    FlatMapMember(us, LinkDevices(g), u);
    if LinkHit(WindowOf(g, u)) {
      var i :| 0 <= i < |us| && us[i] == u;
      assert u in LinkDevices(g)(u) <==> u in LinkDevices(g)(us[i]);
    }
  }

  /** When a device's ECC counter leg is minted, and under which source. */
  lemma EccLegExact(g: Gathered, obs: seq<Observation>, ds: seq<EccDevice>, u: string, s: SignalSource)
    requires Counts(g, obs, u) && EccListed(ds, g)
    ensures EccDevice(u, s) in ds <==> FirstEccPositive(obs, u) && EccSource(obs, u, s)
  {
  }

  lemma LinkLegExact(g: Gathered, obs: seq<Observation>, ds: seq<string>, u: string)
    requires Counts(g, obs, u) && LinkListed(ds, g)
    ensures u in ds <==> FirstLinkPositive(obs, u) && Saw(obs, DCGM, LinkHit, u)
  {
  }

  // ---- soundness of every leg

  /** Observation o itself carries the fact that entry e states, and e bears o's source. */
  ghost predicate Witness(o: Observation, e: TimelineEntry, now: int) {
    && o.source == e.source
    && (|| (o.source == DMESG_XID && exists x :: x in o.xidEvents && e in XidLegOf(x, now))
        || (o.source == NCCL && exists n :: n in o.ncclEvents && e in NcclLegOf(n, now))
        || (o.source in {DCGM, PROMETHEUS}
            && exists w :: w in o.deviceWindows && EccHit(w) && e == EccLegOf(EccDevice(w.uuid, o.source), now))
        || (o.source == DCGM && exists w :: w in o.deviceWindows && LinkHit(w) && e == LinkLegOf(w.uuid, now))
        || (exists te :: te in o.timeline && e in Admitted(o.source, te)))
  }

  lemma XidFactWitness(obs: seq<Observation>, x: Option<XidEvent>, e: TimelineEntry, now: int)
    requires x in FlatMap(obs, XidFacts) && e in XidLegOf(x, now)
    ensures exists o :: o in obs && Witness(o, e, now)
  {
    FlatMapMember(obs, XidFacts, x);
    var k :| 0 <= k < |obs| && x in XidFacts(obs[k]);
    assert Witness(obs[k], e, now);
  }

  lemma NcclFactWitness(obs: seq<Observation>, n: Option<NcclEvent>, e: TimelineEntry, now: int)
    requires n in FlatMap(obs, NcclFacts) && e in NcclLegOf(n, now)
    ensures exists o :: o in obs && Witness(o, e, now)
  {
    FlatMapMember(obs, NcclFacts, n);
    var k :| 0 <= k < |obs| && n in NcclFacts(obs[k]);
    assert Witness(obs[k], e, now);
  }

  lemma XidLegWitness(obs: seq<Observation>, e: TimelineEntry, now: int)
    requires e in FlatMap(FlatMap(obs, XidFacts), XidLegs(now))
    ensures exists o :: o in obs && Witness(o, e, now)
  {
    var facts := FlatMap(obs, XidFacts);
    FlatMapMember(facts, XidLegs(now), e);
    var i :| 0 <= i < |facts| && e in XidLegs(now)(facts[i]);
    XidFactWitness(obs, facts[i], e, now);
  }

  lemma NcclLegWitness(obs: seq<Observation>, e: TimelineEntry, now: int)
    requires e in FlatMap(FlatMap(obs, NcclFacts), NcclLegs(now))
    ensures exists o :: o in obs && Witness(o, e, now)
  {
    var facts := FlatMap(obs, NcclFacts);
    FlatMapMember(facts, NcclLegs(now), e);
    var i :| 0 <= i < |facts| && e in NcclLegs(now)(facts[i]);
    NcclFactWitness(obs, facts[i], e, now);
  }

  lemma EccLegWitness(g: Gathered, obs: seq<Observation>, ds: seq<EccDevice>, e: TimelineEntry, now: int)
    requires EccListed(ds, g) && forall u :: Counts(g, obs, u)
    requires e in FlatMap(ds, EccLegs(now))
    ensures exists o :: o in obs && Witness(o, e, now)
  {
    FlatMapMember(ds, EccLegs(now), e);
    var i :| 0 <= i < |ds| && e in EccLegs(now)(ds[i]);
    EccWitness(g, obs, ds, ds[i].uuid, ds[i].source, now);
    assert ds[i] == EccDevice(ds[i].uuid, ds[i].source);
  }

  lemma EccWitness(g: Gathered, obs: seq<Observation>, ds: seq<EccDevice>, u: string, s: SignalSource, now: int)
    requires EccListed(ds, g) && Counts(g, obs, u) && EccDevice(u, s) in ds
    ensures exists o :: o in obs && Witness(o, EccLegOf(EccDevice(u, s), now), now)
  {
    EccLegExact(g, obs, ds, u, s);
    var o :| o in obs && o.source == s && SawIn(o.deviceWindows, EccHit, u);
    assert Witness(o, EccLegOf(EccDevice(u, s), now), now);
  }

  lemma LinkLegWitness(g: Gathered, obs: seq<Observation>, ds: seq<string>, e: TimelineEntry, now: int)
    requires LinkListed(ds, g) && forall u :: Counts(g, obs, u)
    requires e in FlatMap(ds, LinkLegs(now))
    ensures exists o :: o in obs && Witness(o, e, now)
  {
    FlatMapMember(ds, LinkLegs(now), e);
    var i :| 0 <= i < |ds| && e in LinkLegs(now)(ds[i]);
    LinkWitness(g, obs, ds, ds[i], now);
  }

  lemma LinkWitness(g: Gathered, obs: seq<Observation>, ds: seq<string>, u: string, now: int)
    requires LinkListed(ds, g) && Counts(g, obs, u) && u in ds
    ensures exists o :: o in obs && Witness(o, LinkLegOf(u, now), now)
  {
    LinkLegExact(g, obs, ds, u);
    var o :| o in obs && o.source == DCGM && SawIn(o.deviceWindows, LinkHit, u);
    assert Witness(o, LinkLegOf(u, now), now);
  }

  lemma InjectedWitness(obs: seq<Observation>, e: TimelineEntry, now: int)
    requires e in FlatMap(obs, Injected)
    ensures exists o :: o in obs && Witness(o, e, now)
  {
    FlatMapMember(obs, Injected, e);
    var k :| 0 <= k < |obs| && e in Injected(obs[k]);
    var o := obs[k];
    FlatMapMember(o.timeline, Admit(o.source), e);
    var j :| 0 <= j < |o.timeline| && e in Admit(o.source)(o.timeline[j]);
    assert o.timeline[j] in o.timeline && e in Admitted(o.source, o.timeline[j]);
    assert Witness(o, e, now);
  }

  lemma CitationsCarryNoSignal(sources: seq<SignalSource>, now: int, e: TimelineEntry)
    requires e in FlatMap(sources, Citations(now))
    ensures e.signalId == ""
  {
    FlatMapMember(sources, Citations(now), e);
  }

  /** Provenance soundness: every signal on the published timeline was observed, as
      stated, by a collector of the source it bears. */
  lemma EverySignalIsWitnessed(agentId: string, now: int, window: int, obs: seq<Observation>, lib: Library,
                               win: SignalWindow, e: TimelineEntry)
    requires Normalized(agentId, now, window, obs, lib) == Ok(win)
    requires e in win.pack.timeline && e.signalId != ""
    ensures exists o :: o in obs && Witness(o, e, now)
  {
    var g := GatherAll(obs);
    forall u ensures Counts(g, obs, u) { GatherCounts(obs, u); }
    SortedUuidsList(g);
    CounterListings(g, SortedUuids(g));
    SignalIsWitnessed(g, obs, FlatMap(SortedUuids(g), EccDevices(g)), FlatMap(SortedUuids(g), LinkDevices(g)),
                      SortedSources(g), e, now);
  }

  lemma SignalIsWitnessed(g: Gathered, obs: seq<Observation>, ecc: seq<EccDevice>, link: seq<string>,
                          sources: seq<SignalSource>, e: TimelineEntry, now: int)
    requires EccListed(ecc, g) && LinkListed(link, g) && forall u :: Counts(g, obs, u)
    requires g.xidFacts == FlatMap(obs, XidFacts) && g.ncclFacts == FlatMap(obs, NcclFacts)
    requires g.injected == FlatMap(obs, Injected)
    requires e.signalId != ""
    requires e in FlatMap(sources, Citations(now))
                  + (FlatMap(g.xidFacts, XidLegs(now)) + FlatMap(g.ncclFacts, NcclLegs(now))
                     + FlatMap(ecc, EccLegs(now)) + FlatMap(link, LinkLegs(now)))
                  + g.injected
    ensures exists o :: o in obs && Witness(o, e, now)
  {
    if e in FlatMap(sources, Citations(now)) {
      CitationsCarryNoSignal(sources, now, e);
    } else if e in FlatMap(g.xidFacts, XidLegs(now)) {
      XidLegWitness(obs, e, now);
    } else if e in FlatMap(g.ncclFacts, NcclLegs(now)) {
      NcclLegWitness(obs, e, now);
    } else if e in FlatMap(ecc, EccLegs(now)) {
      EccLegWitness(g, obs, ecc, e, now);
    } else if e in FlatMap(link, LinkLegs(now)) {
      LinkLegWitness(g, obs, link, e, now);
    } else {
      InjectedWitness(obs, e, now);
    }
  }

  /** One collector cannot forge independence: collectors of a single source yield
      legs of that source only. */
  lemma OneSourceOneLegSource(agentId: string, now: int, window: int, obs: seq<Observation>, lib: Library,
                              win: SignalWindow, s: SignalSource)
    requires Normalized(agentId, now, window, obs, lib) == Ok(win)
    requires forall o :: o in obs ==> o.source == s
    ensures forall e :: e in win.pack.timeline && e.signalId != "" ==> e.source == s
  {
    forall e | e in win.pack.timeline && e.signalId != "" ensures e.source == s {
      EverySignalIsWitnessed(agentId, now, window, obs, lib, win, e);
    }
  }

  // ---- completeness and projection of the log and injected legs

  function From(s: SignalSource): Observation -> bool {
    (o: Observation) => o.source == s
  }

  function Bears(s: SignalSource): TimelineEntry -> bool {
    (e: TimelineEntry) => e.source == s
  }

  function XidLegsIn(now: int): Observation -> seq<TimelineEntry> {
    (o: Observation) => FlatMap(XidFacts(o), XidLegs(now))
  }

  function NcclLegsIn(now: int): Observation -> seq<TimelineEntry> {
    (o: Observation) => FlatMap(NcclFacts(o), NcclLegs(now))
  }

  lemma {:induction false} FlatMapOfFlatMap<T, U, V>(s: seq<T>, f: T -> seq<U>, h: U -> seq<V>, fh: T -> seq<V>)
    requires forall x :: fh(x) == FlatMap(f(x), h)
    ensures FlatMap(FlatMap(s, f), h) == FlatMap(s, fh)
  {
    if s != [] {
      var n := |s| - 1;
      FlatMapOfFlatMap(s[..n], f, h, fh);
      FlatMapConcat(FlatMap(s[..n], f), f(s[n]), h);
    }
  }

  /** The legs that do not depend on a merged counter, by origin. */
  function LogLegs(obs: seq<Observation>, now: int): (seq<TimelineEntry>, seq<TimelineEntry>, seq<TimelineEntry>) {
    (FlatMap(FlatMap(obs, XidFacts), XidLegs(now)), FlatMap(FlatMap(obs, NcclFacts), NcclLegs(now)),
     FlatMap(obs, Injected))
  }

  lemma LegsBearTheirSource(o: Observation, now: int, e: TimelineEntry)
    ensures e in XidLegsIn(now)(o) ==> e.source == o.source
    ensures e in NcclLegsIn(now)(o) ==> e.source == o.source
    ensures e in Injected(o) ==> e.source == o.source
  {
    FlatMapMember(XidFacts(o), XidLegs(now), e);
    FlatMapMember(NcclFacts(o), NcclLegs(now), e);
    FlatMapMember(o.timeline, Admit(o.source), e);
  }

  /** Projection: for any source, its XID, NCCL and injected legs are exactly those
      its own observations alone would give, in the same order. */
  lemma LogLegsProject(obs: seq<Observation>, now: int, s: SignalSource)
    ensures var (xid, nccl, inj) := LogLegs(obs, now);
            LogLegs(Select(obs, From(s)), now)
            == (Select(xid, Bears(s)), Select(nccl, Bears(s)), Select(inj, Bears(s)))
  {
    forall i, e | 0 <= i < |obs| ensures
        && (e in XidLegsIn(now)(obs[i]) ==> (Bears(s)(e) <==> From(s)(obs[i])))
        && (e in NcclLegsIn(now)(obs[i]) ==> (Bears(s)(e) <==> From(s)(obs[i])))
        && (e in Injected(obs[i]) ==> (Bears(s)(e) <==> From(s)(obs[i])))
    {
      LegsBearTheirSource(obs[i], now, e);
    }
    var own := Select(obs, From(s));
    SelectOfFlatMap(obs, From(s), XidLegsIn(now), Bears(s));
    SelectOfFlatMap(obs, From(s), NcclLegsIn(now), Bears(s));
    SelectOfFlatMap(obs, From(s), Injected, Bears(s));
    FlatMapOfFlatMap(obs, XidFacts, XidLegs(now), XidLegsIn(now));
    FlatMapOfFlatMap(obs, NcclFacts, NcclLegs(now), NcclLegsIn(now));
    FlatMapOfFlatMap(own, XidFacts, XidLegs(now), XidLegsIn(now));
    FlatMapOfFlatMap(own, NcclFacts, NcclLegs(now), NcclLegsIn(now));
  }
}
