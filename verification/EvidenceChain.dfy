/** From a published counter leg back to the counter: what normalize.go publishes of DCGM is
    traced to the scrapes of collectors_dcgm.go. */
module EvidenceChain {
  import opened Prelude
  import opened Evidence
  import opened Legs
  import opened Gather
  import opened Normalize
  import opened Provenance
  import opened DcgmCounters
  import CounterLegs
  import Scrape

  /** What DCGM contributes to the cycle are windows that its collector reported. */
  ghost predicate Reports(obs: seq<Observation>, outs: seq<seq<DeviceWindow>>) {
    forall o :: o in obs && o.source == DCGM ==> ReportedBy(o, outs)
  }

  predicate ReportedBy(o: Observation, outs: seq<seq<DeviceWindow>>) {
    o.timeline == [] && o.deviceWindows in outs
  }

  /** Some reading of device u lies above the latest earlier one. */
  ghost predicate Rose(rs: seq<Sample>, u: string) {
    exists i: nat :: RoseAt(rs, u, i)
  }

  predicate RoseAt(rs: seq<Sample>, u: string, i: nat) {
    i < |rs| && rs[i].uuid == u && rs[i].known && Above(rs[i].value, Values(rs[..i], u))
  }

  lemma DeltaKeepsDevice(rs: seq<Sample>, i: nat)
    requires i < |rs|
    ensures var d := Deltas(map[], rs)[i]; d.uuid == rs[i].uuid && d.known == rs[i].known
  {
    DeltasAt(map[], rs, i);
  }

  lemma PositiveDeltaRose(rs: seq<Sample>, i: nat, u: string)
    requires i < |rs| && var d := Deltas(map[], rs)[i]; d.uuid == u && d.known && d.value > 0
    ensures Rose(rs, u)
  {
    DeltaKeepsDevice(rs, i);
    PositiveDeltaIsARise(rs, i, Values(rs[..i], u));
    assert RoseAt(rs, u, i);
  }

  lemma {:induction false} SampleOfWindow(outs: seq<seq<DeviceWindow>>, read: DeviceWindow -> Sample, k: nat, j: nat)
    returns (i: nat)
    requires k < |outs| && j < |outs[k]|
    ensures i < |Scrape.AllSamples(outs, read)| && Scrape.AllSamples(outs, read)[i] == read(outs[k][j])
  {
    var n := |outs| - 1;
    var front := Scrape.AllSamples(outs[..n], read);
    if k < n {
      i := SampleOfWindow(outs[..n], read, k, j);
    } else {
      i := |front| + j;
      assert Samples(outs[n], read)[j] == read(outs[n][j]);
    }
  }

  /** A positive delta in what was reported is a rise in what was read. */
  lemma ReportedMeansRose(wss: seq<seq<DeviceWindow>>, outs: seq<seq<DeviceWindow>>, read: DeviceWindow -> Sample,
                          ws: seq<DeviceWindow>, w: DeviceWindow)
    requires Scrape.RunOf(wss, outs, read) && ws in outs && w in ws && read(w).known && read(w).value > 0
    ensures Rose(Scrape.AllSamples(wss, read), read(w).uuid)
  {
    var k :| 0 <= k < |outs| && outs[k] == ws;
    var j :| 0 <= j < |ws| && ws[j] == w;
    var i := SampleOfWindow(outs, read, k, j);
    PositiveDeltaRose(Scrape.AllSamples(wss, read), i, read(w).uuid);
  }

  lemma EccIdIsNotLinkId(u: string, v: string)
    ensures "ecc.dbe." + u != "link.error." + v
  {
    assert ("ecc.dbe." + u)[0] == 'e' && ("link.error." + v)[0] == 'l';
  }

  lemma SameTail(p: string, u: string, v: string)
    requires p + u == p + v
    ensures u == v
  {
    assert (p + u)[|p|..] == u && (p + v)[|p|..] == v;
  }

  /** The witness of DCGM's ECC leg is a window with a positive delta. */
  lemma EccWitnessReads(o: Observation, u: string, now: int) returns (w: DeviceWindow)
    requires Witness(o, EccLegOf(EccDevice(u, DCGM), now), now) && o.timeline == []
    ensures w in o.deviceWindows && EccHit(w) && w.uuid == u
  {
    var e := EccLegOf(EccDevice(u, DCGM), now);
    forall v: DeviceWindow ensures e != LinkLegOf(v.uuid, now) {
      EccIdIsNotLinkId(u, v.uuid);
    }
    w :| w in o.deviceWindows && EccHit(w) && e == EccLegOf(EccDevice(w.uuid, o.source), now);
    SameTail("ecc.dbe.", u, w.uuid);
  }

  lemma LinkWitnessReads(o: Observation, u: string, now: int) returns (w: DeviceWindow)
    requires Witness(o, LinkLegOf(u, now), now) && o.timeline == []
    ensures w in o.deviceWindows && LinkHit(w) && w.uuid == u
  {
    var e := LinkLegOf(u, now);
    forall v: DeviceWindow ensures e != EccLegOf(EccDevice(v.uuid, o.source), now) {
      EccIdIsNotLinkId(v.uuid, u);
    }
    w :| w in o.deviceWindows && LinkHit(w) && e == LinkLegOf(w.uuid, now);
    SameTail("link.error.", u, w.uuid);
  }

  lemma LegIdsAreNotEmpty(u: string, now: int)
    ensures EccLegOf(EccDevice(u, DCGM), now).signalId != "" && LinkLegOf(u, now).signalId != ""
  {
    assert |"ecc.dbe." + u| >= |"ecc.dbe."| && |"link.error." + u| >= |"link.error."|;
  }

  /** A published ECC leg under DCGM means that the collector, in a scrape that was let
      through, read the device's counter above the latest earlier reading. */
  lemma EccLegMeansRise(agentId: string, now: int, window: int, obs: seq<Observation>, lib: Library, win: SignalWindow,
                        u: string, wss: seq<seq<DeviceWindow>>, outs: seq<seq<DeviceWindow>>)
    requires Normalized(agentId, now, window, obs, lib) == Ok(win)
    requires EccLegOf(EccDevice(u, DCGM), now) in win.pack.timeline
    requires Reports(obs, outs) && Scrape.RunOf(wss, outs, DbeSample)
    ensures Rose(Scrape.AllSamples(wss, DbeSample), u)
  {
    var e := EccLegOf(EccDevice(u, DCGM), now);
    LegIdsAreNotEmpty(u, now);
    EverySignalIsWitnessed(agentId, now, window, obs, lib, win, e);
    var o :| o in obs && Witness(o, e, now);
    EccWitnessMeansRise(o, u, now, wss, outs);
  }

  lemma EccWitnessMeansRise(o: Observation, u: string, now: int, wss: seq<seq<DeviceWindow>>, outs: seq<seq<DeviceWindow>>)
    requires Witness(o, EccLegOf(EccDevice(u, DCGM), now), now) && ReportedBy(o, outs)
    requires Scrape.RunOf(wss, outs, DbeSample)
    ensures Rose(Scrape.AllSamples(wss, DbeSample), u)
  {
    var w := EccWitnessReads(o, u, now);
    ReportedMeansRose(wss, outs, DbeSample, o.deviceWindows, w);
  }

  /** And so does a published link leg. */
  lemma LinkLegMeansRise(agentId: string, now: int, window: int, obs: seq<Observation>, lib: Library, win: SignalWindow,
                         u: string, wss: seq<seq<DeviceWindow>>, outs: seq<seq<DeviceWindow>>)
    requires Normalized(agentId, now, window, obs, lib) == Ok(win)
    requires LinkLegOf(u, now) in win.pack.timeline
    requires Reports(obs, outs) && Scrape.RunOf(wss, outs, LinkSample)
    ensures Rose(Scrape.AllSamples(wss, LinkSample), u)
  {
    var e := LinkLegOf(u, now);
    LegIdsAreNotEmpty(u, now);
    EverySignalIsWitnessed(agentId, now, window, obs, lib, win, e);
    var o :| o in obs && Witness(o, e, now);
    LinkWitnessMeansRise(o, u, now, wss, outs);
  }

  lemma LinkWitnessMeansRise(o: Observation, u: string, now: int, wss: seq<seq<DeviceWindow>>, outs: seq<seq<DeviceWindow>>)
    requires Witness(o, LinkLegOf(u, now), now) && ReportedBy(o, outs)
    requires Scrape.RunOf(wss, outs, LinkSample)
    ensures Rose(Scrape.AllSamples(wss, LinkSample), u)
  {
    var w := LinkWitnessReads(o, u, now);
    ReportedMeansRose(wss, outs, LinkSample, o.deviceWindows, w);
  }

  // ---- one observation of a source per cycle

  ghost predicate DistinctDevices(ws: seq<DeviceWindow>) {
    forall i, j :: 0 <= i < j < |ws| ==> ws[i].uuid != ws[j].uuid
  }

  lemma {:induction false} AtMostOneWindow(ws: seq<DeviceWindow>, u: string)
    requires DistinctDevices(ws)
    ensures |Select(ws, HasUuid(u))| <= 1
    ensures (forall i :: 0 <= i < |ws| ==> ws[i].uuid != u) ==> Select(ws, HasUuid(u)) == []
  {
    if ws != [] {
      AtMostOneWindow(ws[..|ws| - 1], u);
    }
  }

  /** A source that contributes one observation, without repeated devices, reads each device
      once, so its counter legs are those of its own observation. */
  lemma OneObservationReadsOnce(obs: seq<Observation>, s: SignalSource, o: Observation, u: string)
    requires CounterLegs.Own(obs, s) == [o] && DistinctDevices(o.deviceWindows)
    ensures CounterLegs.ReadsOnce(obs, s, u, EccOf) && CounterLegs.ReadsOnce(obs, s, u, LinkOf)
  {
    FlatMapOne(o, AllWindows);
    AtMostOneWindow(o.deviceWindows, u);
  }

  /** A collection reports the devices of its scrape, so it repeats none. */
  lemma ReportIsDistinct(seconds: real, rs: seq<Scrape.Reading>, ws: seq<DeviceWindow>, out: seq<DeviceWindow>,
                         dbe: map<string, nat>, link: map<string, nat>)
    requires Scrape.IsScrape(seconds, rs, ws) && Scrape.IsRebased(ws, out, dbe, link)
    ensures |out| == |ws| && (forall i :: 0 <= i < |out| ==> out[i].uuid == ws[i].uuid) && DistinctDevices(out)
  {
    var ss, ds := Samples(ws, DbeSample), Samples(out, DbeSample);
    forall i | 0 <= i < |out| ensures out[i].uuid == ws[i].uuid {
      DeltasAt(dbe, ss, i);
      assert ds[i] == DbeSample(out[i]) && ss[i] == DbeSample(ws[i]);
    }
  }
}
