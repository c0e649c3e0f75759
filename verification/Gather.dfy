/** The first pass of Normalize (normalize.go): gathering what each observation
    contributes, under the rules that keep every fact tied to its source. */
module Gather {
  import opened Prelude
  import opened Evidence
  import opened Merge
  import opened Legs

  // ---- what one observation contributes

  function XidFacts(o: Observation): seq<Option<XidEvent>> { if o.source == DMESG_XID then o.xidEvents else [] }
  function NcclFacts(o: Observation): seq<Option<NcclEvent>> { if o.source == NCCL then o.ncclEvents else [] }
  function AllXids(o: Observation): seq<Option<XidEvent>> { o.xidEvents }
  function AllNccls(o: Observation): seq<Option<NcclEvent>> { o.ncclEvents }
  function AllSeries(o: Observation): seq<FieldSeries> { o.dcgmSeries }
  function AllMappings(o: Observation): seq<Mapping> { o.mappings }
  function AllWindows(o: Observation): seq<DeviceWindow> { o.deviceWindows }

  /** A pre-formed entry is admitted under the observation's own source only. */
  function Admitted(source: SignalSource, te: Option<TimelineEntry>): seq<TimelineEntry> {
    if te.None? then []
    else
      var e := if te.value.source == UNSPECIFIED then te.value.(source := source) else te.value;
      if e.source != source then [] else [e]
  }

  /** An entry with a foreign source is dropped, one without a source adopts it. */
  lemma AdmittedIff(source: SignalSource, e: TimelineEntry)
    ensures Admitted(source, Some(e)) == if e.source == source || e.source == UNSPECIFIED then [e.(source := source)] else []
  {
  }

  function Admit(source: SignalSource): Option<TimelineEntry> -> seq<TimelineEntry> {
    te => Admitted(source, te)
  }

  function Injected(o: Observation): seq<TimelineEntry> { FlatMap(o.timeline, Admit(o.source)) }

  predicate EccHit(w: DeviceWindow) { w.eccKnown && w.eccErrs > 0 }
  predicate LinkHit(w: DeviceWindow) { w.linkKnown && w.linkErrs > 0 }

  /** The devices whose counter was seen to move, per leg the counter may feed. */
  datatype Seen = Seen(eccDcgm: set<string>, eccProm: set<string>, linkDcgm: set<string>)

  function SeenAfter(source: SignalSource): (Seen, DeviceWindow) -> Seen {
    (seen: Seen, w: DeviceWindow) =>
      Seen(
        if source == DCGM && EccHit(w) then seen.eccDcgm + {w.uuid} else seen.eccDcgm,
        if source == PROMETHEUS && EccHit(w) then seen.eccProm + {w.uuid} else seen.eccProm,
        if source == DCGM && LinkHit(w) then seen.linkDcgm + {w.uuid} else seen.linkDcgm)
  }

  function SeenIn(seen: Seen, o: Observation): Seen {
    FoldLeft(SeenAfter(o.source), seen, o.deviceWindows)
  }

  // ---- device windows by uuid

  function Or<T>(t: map<string, T>, u: string, otherwise: T): T {
    if u in t then t[u] else otherwise
  }

  /** The table of merged devices after one more window. */
  function TableAfter(t: map<string, DeviceWindow>, w: DeviceWindow): map<string, DeviceWindow> {
    t[w.uuid := Merged(Or(t, w.uuid, Blank(w.uuid)), w)]
  }

  /** The per-device accumulators behind their pointers. */
  class DeviceTable {
    var merged: map<string, MergedDevice>
    ghost var contents: map<string, DeviceWindow>
    ghost var repr: set<object>

    ghost predicate Valid()
      reads this, repr
    {
      && this in repr
      && contents.Keys == merged.Keys
      && (forall u :: u in merged ==> merged[u] in repr && merged[u].Window() == contents[u])
      && (forall u, v :: u in merged && v in merged && u != v ==> merged[u] != merged[v])
    }

    constructor ()
      ensures Valid() && contents == map[] && fresh(repr)
    {
      merged, contents, repr := map[], map[], {this};
    }

    method Track(uuid: string)
      requires Valid()
      modifies this
      ensures Valid() && contents == old(contents)[uuid := Or(old(contents), uuid, Blank(uuid))]
      ensures fresh(repr - old(repr))
    {
      if uuid !in merged {
        var md := new MergedDevice(uuid);
        merged, contents, repr := merged[uuid := md], contents[uuid := Blank(uuid)], repr + {md};
      }
    }

    method AdmitWindow(dw: DeviceWindow)
      requires Valid()
      modifies repr
      ensures Valid() && contents == TableAfter(old(contents), dw)
      ensures fresh(repr - old(repr))
    {
      Track(dw.uuid);
      MergeInto(dw);
    }

    /** Merges a window into its device's accumulator. */
    method MergeInto(dw: DeviceWindow)
      requires Valid() && dw.uuid in contents
      modifies repr
      ensures Valid() && repr == old(repr)
      ensures contents == old(contents)[dw.uuid := Merged(old(contents)[dw.uuid], dw)]
    {
      var md := merged[dw.uuid];
      md.MergeDeviceWindow(dw);
      contents := contents[dw.uuid := md.Window()];
    }

    method Contents() returns (t: map<string, DeviceWindow>)
      requires Valid()
      ensures t == contents
    {
      t := map u | u in merged :: merged[u].Window();
    }
  }

  // ---- device-to-job mappings: the first with a job wins, else the last

  function MappingAfter(t: map<string, Mapping>, m: Mapping): map<string, Mapping> {
    if m.deviceUuid !in t || t[m.deviceUuid].jobId == "" then t[m.deviceUuid := m] else t
  }

  method AdmitMappings(t0: map<string, Mapping>, ms: seq<Mapping>) returns (t: map<string, Mapping>)
    ensures t == FoldLeft(MappingAfter, t0, ms)
  {
    t := t0;
    for i := 0 to |ms|
      invariant t == FoldLeft(MappingAfter, t0, ms[..i])
    {
      FoldLeftStep(MappingAfter, t0, ms, i);
      var m := ms[i];
      if m.deviceUuid !in t || t[m.deviceUuid].jobId == "" {
        t := t[m.deviceUuid := m];
      }
    }
    assert ms[..|ms|] == ms;
  }

  // ---- provenance keys, prefixed with the short name of their source

  function Namespaced(s: SignalSource, k: string): string {
    SourceShort(s) + "." + k
  }

  lemma NamespacedInjective(s: SignalSource)
    ensures forall k1, k2 :: Namespaced(s, k1) == Namespaced(s, k2) ==> k1 == k2
  {
    var n := |SourceShort(s)| + 1;
    forall k1, k2 | Namespaced(s, k1) == Namespaced(s, k2) ensures k1 == k2 {
      assert Namespaced(s, k1)[n..] == k1 && Namespaced(s, k2)[n..] == k2;
    }
  }

  /** The observation's metadata for the given keys, under namespaced keys. */
  function NamespacedPart(o: Observation, keys: set<string>): map<string, string>
    requires keys <= o.provenance.Keys
  {
    NamespacedInjective(o.source);
    map k | k in keys :: Namespaced(o.source, k) := o.provenance[k]
  }

  function Stamped(t: map<string, string>, o: Observation): map<string, string> {
    t + NamespacedPart(o, o.provenance.Keys)
  }

  lemma NamespacedPartStep(o: Observation, keys: set<string>, k: string)
    requires keys <= o.provenance.Keys && k in o.provenance
    ensures NamespacedPart(o, keys + {k}) == NamespacedPart(o, keys)[Namespaced(o.source, k) := o.provenance[k]]
  {
    NamespacedInjective(o.source);
  }

  lemma StampStep(t0: map<string, string>, o: Observation, keys: set<string>, k: string)
    requires keys <= o.provenance.Keys && k in o.provenance
    ensures (t0 + NamespacedPart(o, keys))[Namespaced(o.source, k) := o.provenance[k]] == t0 + NamespacedPart(o, keys + {k})
  {
    NamespacedPartStep(o, keys, k);
  }

  /** Ranges over the metadata in an arbitrary order. */
  method StampProvenance(t0: map<string, string>, o: Observation) returns (t: map<string, string>)
    ensures t == Stamped(t0, o)
  {
    t := t0;
    var left := o.provenance.Keys;
    ghost var done: set<string> := {};
    while left != {}
      invariant left !! done && left + done == o.provenance.Keys
      invariant t == t0 + NamespacedPart(o, done)
    {
      var k :| k in left;
      StampStep(t0, o, done, k);
      t := t[Namespaced(o.source, k) := o.provenance[k]];
      left, done := left - {k}, done + {k};
    }
  }

  // ---- the whole first pass

  datatype Gathered = Gathered(
    sources: seq<SignalSource>,
    provenance: map<string, string>,
    dcgmSeries: seq<FieldSeries>,
    xidEvents: seq<Option<XidEvent>>,
    ncclEvents: seq<Option<NcclEvent>>,
    xidFacts: seq<Option<XidEvent>>,
    ncclFacts: seq<Option<NcclEvent>>,
    injected: seq<TimelineEntry>,
    mappings: map<string, Mapping>,
    windows: map<string, DeviceWindow>,
    seen: Seen)

  function SourcesAfter(ss: seq<SignalSource>, o: Observation): seq<SignalSource> {
    if o.source in ss then ss else ss + [o.source]
  }

  function MappingsAfter(t: map<string, Mapping>, o: Observation): map<string, Mapping> {
    FoldLeft(MappingAfter, t, o.mappings)
  }

  function WindowsAfter(t: map<string, DeviceWindow>, o: Observation): map<string, DeviceWindow> {
    FoldLeft(TableAfter, t, o.deviceWindows)
  }

  /** What the first pass computes, each part by its own walk over the observations. */
  function GatherAll(obs: seq<Observation>): Gathered {
    Gathered(
      FoldLeft(SourcesAfter, [], obs),
      FoldLeft(Stamped, map[], obs),
      FlatMap(obs, AllSeries), FlatMap(obs, AllXids), FlatMap(obs, AllNccls),
      FlatMap(obs, XidFacts), FlatMap(obs, NcclFacts), FlatMap(obs, Injected),
      FoldLeft(MappingsAfter, map[], obs),
      FoldLeft(WindowsAfter, map[], obs),
      FoldLeft(SeenIn, Seen({}, {}, {}), obs))
  }

  method AdmitTimeline(acc: seq<TimelineEntry>, o: Observation) returns (out: seq<TimelineEntry>)
    ensures out == acc + Injected(o)
  {
    out := acc;
    for i := 0 to |o.timeline|
      invariant out == acc + FlatMap(o.timeline[..i], Admit(o.source))
    {
      FlatMapStep(o.timeline, Admit(o.source), i);
      var te := o.timeline[i];
      if te.None? {
        continue;
      }
      var e := te.value;
      if e.source == UNSPECIFIED {
        e := e.(source := o.source);
      }
      if e.source != o.source {
        continue;
      }
      out := out + [e];
    }
    FlatMapWhole(o.timeline, Admit(o.source));
  }

  method AdmitWindows(table: DeviceTable, seen0: Seen, o: Observation) returns (seen: Seen)
    requires table.Valid()
    modifies table.repr
    ensures table.Valid() && table.contents == WindowsAfter(old(table.contents), o)
    ensures fresh(table.repr - old(table.repr))
    ensures seen == SeenIn(seen0, o)
  {
    seen := seen0;
    ghost var t0 := table.contents;
    for j := 0 to |o.deviceWindows|
      invariant table.Valid() && fresh(table.repr - old(table.repr))
      invariant table.contents == FoldLeft(TableAfter, t0, o.deviceWindows[..j])
      invariant seen == FoldLeft(SeenAfter(o.source), seen0, o.deviceWindows[..j])
    {
      var dw := o.deviceWindows[j];
      FoldLeftStep(TableAfter, t0, o.deviceWindows, j);
      FoldLeftStep(SeenAfter(o.source), seen0, o.deviceWindows, j);
      if o.source == DCGM && dw.eccKnown && dw.eccErrs > 0 {
        seen := seen.(eccDcgm := seen.eccDcgm + {dw.uuid});
      }
      if o.source == PROMETHEUS && dw.eccKnown && dw.eccErrs > 0 {
        seen := seen.(eccProm := seen.eccProm + {dw.uuid});
      }
      if o.source == DCGM && dw.linkKnown && dw.linkErrs > 0 {
        seen := seen.(linkDcgm := seen.linkDcgm + {dw.uuid});
      }
      table.AdmitWindow(dw);
    }
    assert o.deviceWindows[..|o.deviceWindows|] == o.deviceWindows;
  }

  /** h is g after the contributions of o. */
  ghost predicate Extends(g: Gathered, o: Observation, h: Gathered) {
    && h.sources == SourcesAfter(g.sources, o)
    && h.provenance == Stamped(g.provenance, o)
    && h.dcgmSeries == g.dcgmSeries + o.dcgmSeries
    && h.xidEvents == g.xidEvents + o.xidEvents
    && h.ncclEvents == g.ncclEvents + o.ncclEvents
    && h.xidFacts == g.xidFacts + XidFacts(o)
    && h.ncclFacts == g.ncclFacts + NcclFacts(o)
    && h.injected == g.injected + Injected(o)
    && h.mappings == MappingsAfter(g.mappings, o)
    && h.windows == WindowsAfter(g.windows, o)
    && h.seen == SeenIn(g.seen, o)
  }

  lemma GatherStep(obs: seq<Observation>, i: nat)
    requires i < |obs|
    ensures Extends(GatherAll(obs[..i]), obs[i], GatherAll(obs[..i + 1]))
  {
    FoldLeftStep(SourcesAfter, [], obs, i);
    FoldLeftStep(Stamped, map[], obs, i);
    FoldLeftStep(MappingsAfter, map[], obs, i);
    FoldLeftStep(WindowsAfter, map[], obs, i);
    FoldLeftStep(SeenIn, Seen({}, {}, {}), obs, i);
    FlatMapStep(obs, AllSeries, i);
    FlatMapStep(obs, AllXids, i);
    FlatMapStep(obs, AllNccls, i);
    FlatMapStep(obs, XidFacts, i);
    FlatMapStep(obs, NcclFacts, i);
    FlatMapStep(obs, Injected, i);
  }

  method AdmitObservation(table: DeviceTable, g: Gathered, o: Observation) returns (h: Gathered)
    requires table.Valid() && g.windows == table.contents
    modifies table.repr
    ensures table.Valid() && h.windows == table.contents
    ensures fresh(table.repr - old(table.repr))
    ensures Extends(g, o, h)
  {
    var sources := g.sources;
    if o.source !in sources {
      sources := sources + [o.source];
    }
    var provenance := StampProvenance(g.provenance, o);
    var xidFacts, ncclFacts := g.xidFacts, g.ncclFacts;
    if o.source == DMESG_XID {
      xidFacts := xidFacts + o.xidEvents;
    }
    if o.source == NCCL {
      ncclFacts := ncclFacts + o.ncclEvents;
    }
    var injected := AdmitTimeline(g.injected, o);
    var mappings := AdmitMappings(g.mappings, o.mappings);
    var seen := AdmitWindows(table, g.seen, o);
    var windows := table.Contents();
    h := Gathered(sources, provenance,
                  g.dcgmSeries + o.dcgmSeries, g.xidEvents + o.xidEvents, g.ncclEvents + o.ncclEvents,
                  xidFacts, ncclFacts, injected, mappings, windows, seen);
  }

  method GatherObservations(obs: seq<Observation>) returns (g: Gathered)
    ensures g == GatherAll(obs)
  {
    var table := new DeviceTable();
    g := Gathered([], map[], [], [], [], [], [], [], map[], map[], Seen({}, {}, {}));
    for i := 0 to |obs|
      invariant fresh(table.repr) && table.Valid() && g.windows == table.contents
      invariant g == GatherAll(obs[..i])
    {
      GatherStep(obs, i);
      g := AdmitObservation(table, g, obs[i]);
    }
    assert obs[..|obs|] == obs;
  }
}
