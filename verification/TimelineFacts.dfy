/** The published timeline (normalize.go), part by part and literally: which entry each
    logged fact, counter and pre-formed entry leaves, and that nothing else is there. */
module TimelineFacts {
  import opened Prelude
  import opened Ordering
  import opened Evidence
  import opened Legs
  import opened Gather
  import opened Normalize
  import opened CounterLegs

  // ---- numbers and tokens

  function DigitOf(c: char): nat {
    if '0' <= c <= '9' then c as int - '0' as int else 0
  }

  function Value(digits: string): nat {
    if digits == "" then 0 else Value(digits[..|digits| - 1]) * 10 + DigitOf(digits[|digits| - 1])
  }

  /** A number is written in decimal digits, without a leading zero. */
  lemma {:induction false} DecimalMeans(n: nat)
    ensures forall c :: c in Decimal(n) ==> '0' <= c <= '9'
    ensures Value(Decimal(n)) == n
    ensures Decimal(n) != "" && (Decimal(n)[0] == '0' ==> n == 0)
  {
    var d := ['0' + (n % 10) as char];
    assert d[..0] == "";
    if n >= 10 {
      DecimalMeans(n / 10);
      assert Decimal(n)[..|Decimal(n)| - 1] == Decimal(n / 10);
    }
  }

  /** t is s, with a dash for every dot. */
  ghost predicate Dashed(s: string, t: string) {
    |t| == |s| && forall i :: 0 <= i < |s| ==> t[i] == if s[i] == '.' then '-' else s[i]
  }

  /** The last segment of an XID's id: its device, or the node. */
  ghost predicate IsDeviceToken(e: XidEvent, t: string) {
    if e.deviceUuid == "" then t == "node" else Dashed(e.deviceUuid, t)
  }

  /** The last segment of an NCCL id: its communicator, else its rank, else unknown. */
  ghost predicate IsScopeToken(e: NcclEvent, t: string) {
    if e.communicatorId != "" then Dashed(e.communicatorId, t)
    else if e.rank == 0 then t == "unknown"
    else |t| > 4 && t[..4] == "rank" && (forall c :: c in t[4..] ==> '0' <= c <= '9') && Value(t[4..]) == e.rank && t[4] != '0'
  }

  lemma DeviceTokenMeans(e: XidEvent)
    ensures IsDeviceToken(e, XidDevToken(e))
  {
    SanitizeKeepsAllButDots(e.deviceUuid);
  }

  lemma ScopeTokenMeans(e: NcclEvent)
    ensures IsScopeToken(e, NcclScopeToken(e))
  {
    SanitizeKeepsAllButDots(e.communicatorId);
    if e.communicatorId == "" && e.rank != 0 {
      var t := "rank" + Decimal(e.rank);
      DecimalMeans(e.rank);
      assert t[..4] == "rank" && t[4..] == Decimal(e.rank);
    }
  }

  // ---- XIDs

  /** The kinds of fault XID the gate adjudicates, and the front of their ids. */
  function FaultPrefix(xid: nat): Option<string> {
    match xid
    case 79 => Some("dmesg.xid79.")
    case 48 => Some("dmesg.xid.ecc.48.")
    case 63 => Some("dmesg.xid.ecc.63.")
    case 64 => Some("dmesg.xid.ecc.64.")
    case 94 => Some("dmesg.xid.ecc.94.")
    case 95 => Some("dmesg.xid.ecc.95.")
    case _ => None
  }

  predicate IsFault(e: Option<XidEvent>) { e.Some? && FaultPrefix(e.value.xid).Some? }

  function OwnTime(ts: Option<int>, now: int): Option<int> {
    match ts
    case Some(t) => Some(t)
    case None => Some(now)
  }

  /** The entry a fault XID leaves: its own time or now, dmesg's source, its prefix and device. */
  ghost predicate IsXidEntry(e: XidEvent, now: int, te: TimelineEntry) {
    && FaultPrefix(e.xid).Some?
    && te.ts == OwnTime(e.ts, now) && te.source == DMESG_XID
    && exists t :: IsDeviceToken(e, t) && te.signalId == FaultPrefix(e.xid).value + t
  }

  lemma DecimalOfEcc()
    ensures Decimal(48) == "48" && Decimal(63) == "63" && Decimal(64) == "64" && Decimal(94) == "94" && Decimal(95) == "95"
  {
  }

  lemma XidSignalIs(e: XidEvent)
    ensures XidSignal(e) == if FaultPrefix(e.xid).Some? then Some(FaultPrefix(e.xid).value + XidDevToken(e)) else None
  {
    DecimalOfEcc();
    var t := XidDevToken(e);
    match e.xid {
      case 48 => assert "dmesg.xid.ecc." + "48" + "." == "dmesg.xid.ecc.48.";
      case 63 => assert "dmesg.xid.ecc." + "63" + "." == "dmesg.xid.ecc.63.";
      case 64 => assert "dmesg.xid.ecc." + "64" + "." == "dmesg.xid.ecc.64.";
      case 94 => assert "dmesg.xid.ecc." + "94" + "." == "dmesg.xid.ecc.94.";
      case 95 => assert "dmesg.xid.ecc." + "95" + "." == "dmesg.xid.ecc.95.";
      case _ =>
    }
  }

  lemma XidLegIs(e: Option<XidEvent>, now: int)
    ensures var es := XidLegOf(e, now);
            if IsFault(e) then |es| == 1 && IsXidEntry(e.value, now, es[0]) else es == []
  {
    if e.Some? {
      XidSignalIs(e.value);
      DeviceTokenMeans(e.value);
    }
  }

  /** es are the entries of the fault XIDs among xs, one each, in order. */
  ghost predicate AreXidEntries(xs: seq<Option<XidEvent>>, now: int, es: seq<TimelineEntry>) {
    var fs := Select(xs, IsFault);
    |es| == |fs| && forall i :: 0 <= i < |fs| ==> fs[i].Some? && IsXidEntry(fs[i].value, now, es[i])
  }

  lemma {:induction false} XidEntriesOf(xs: seq<Option<XidEvent>>, now: int)
    ensures AreXidEntries(xs, now, FlatMap(xs, XidLegs(now)))
  {
    if xs != [] {
      XidEntriesOf(xs[..|xs| - 1], now);
      XidLegIs(xs[|xs| - 1], now);
    }
  }

  // ---- NCCL timeouts

  predicate IsTimeout(e: Option<NcclEvent>) { e.Some? && e.value.kind.OpTimeout? }

  ghost predicate IsNcclEntry(e: NcclEvent, now: int, te: TimelineEntry) {
    && te.ts == OwnTime(e.ts, now) && te.source == NCCL
    && exists t :: IsScopeToken(e, t) && te.signalId == "nccl.timeout." + t
  }

  ghost predicate AreNcclEntries(ns: seq<Option<NcclEvent>>, now: int, es: seq<TimelineEntry>) {
    var ts := Select(ns, IsTimeout);
    |es| == |ts| && forall i :: 0 <= i < |ts| ==> ts[i].Some? && IsNcclEntry(ts[i].value, now, es[i])
  }

  lemma {:induction false} NcclEntriesOf(ns: seq<Option<NcclEvent>>, now: int)
    ensures AreNcclEntries(ns, now, FlatMap(ns, NcclLegs(now)))
  {
    if ns != [] {
      NcclEntriesOf(ns[..|ns| - 1], now);
      if ns[|ns| - 1].Some? {
        ScopeTokenMeans(ns[|ns| - 1].value);
      }
    }
  }

  // ---- what the observations hold

  /** The XIDs that dmesg collectors logged, in order. */
  function DmesgXids(obs: seq<Observation>): seq<Option<XidEvent>> {
    if obs == [] then []
    else
      var o := obs[|obs| - 1];
      DmesgXids(obs[..|obs| - 1]) + if o.source == DMESG_XID then o.xidEvents else []
  }

  function LoggedNccls(obs: seq<Observation>): seq<Option<NcclEvent>> {
    if obs == [] then []
    else
      var o := obs[|obs| - 1];
      LoggedNccls(obs[..|obs| - 1]) + if o.source == NCCL then o.ncclEvents else []
  }

  /** The pre-formed entries under s or under no source, as s's own. */
  function Adopted(s: SignalSource, tes: seq<Option<TimelineEntry>>): seq<TimelineEntry> {
    if tes == [] then []
    else
      var te := tes[|tes| - 1];
      Adopted(s, tes[..|tes| - 1])
      + if te.Some? && te.value.source in {s, UNSPECIFIED} then [TimelineEntry(te.value.ts, s, te.value.signalId)] else []
  }

  function Preformed(obs: seq<Observation>): seq<TimelineEntry> {
    if obs == [] then []
    else
      var o := obs[|obs| - 1];
      Preformed(obs[..|obs| - 1]) + Adopted(o.source, o.timeline)
  }

  lemma {:induction false} FactsAre(obs: seq<Observation>)
    ensures FlatMap(obs, XidFacts) == DmesgXids(obs) && FlatMap(obs, NcclFacts) == LoggedNccls(obs)
  {
    if obs != [] {
      FactsAre(obs[..|obs| - 1]);
    }
  }

  lemma {:induction false} AdoptedAre(s: SignalSource, tes: seq<Option<TimelineEntry>>)
    ensures FlatMap(tes, Admit(s)) == Adopted(s, tes)
  {
    if tes != [] {
      AdoptedAre(s, tes[..|tes| - 1]);
      var te := tes[|tes| - 1];
      if te.Some? {
        AdmittedIff(s, te.value);
      }
    }
  }

  lemma {:induction false} InjectedAre(obs: seq<Observation>)
    ensures FlatMap(obs, Injected) == Preformed(obs)
  {
    if obs != [] {
      InjectedAre(obs[..|obs| - 1]);
      AdoptedAre(obs[|obs| - 1].source, obs[|obs| - 1].timeline);
    }
  }

  lemma {:induction false} SourcesAre(obs: seq<Observation>, s: SignalSource)
    ensures s in FoldLeft(SourcesAfter, [], obs) <==> exists o :: o in obs && o.source == s
  {
    if obs != [] {
      SourcesAre(obs[..|obs| - 1], s);
      assert obs == obs[..|obs| - 1] + [obs[|obs| - 1]];
    }
  }

  // ---- the parts of the timeline

  ghost predicate AreCitations(ss: seq<SignalSource>, now: int, es: seq<TimelineEntry>) {
    |es| == |ss| && forall i :: 0 <= i < |ss| ==> es[i] == TimelineEntry(Some(now), ss[i], "")
  }

  ghost predicate AreEccEntries(ds: seq<EccDevice>, now: int, es: seq<TimelineEntry>) {
    |es| == |ds| && forall i :: 0 <= i < |ds| ==> es[i] == TimelineEntry(Some(now), ds[i].source, "ecc.dbe." + ds[i].uuid)
  }

  ghost predicate AreLinkEntries(us: seq<string>, now: int, es: seq<TimelineEntry>) {
    |es| == |us| && forall i :: 0 <= i < |us| ==> es[i] == TimelineEntry(Some(now), DCGM, "link.error." + us[i])
  }

  lemma {:induction false} CitationsOf(ss: seq<SignalSource>, now: int)
    ensures AreCitations(ss, now, FlatMap(ss, Citations(now)))
  {
    if ss != [] {
      CitationsOf(ss[..|ss| - 1], now);
    }
  }

  lemma {:induction false} EccEntriesOf(ds: seq<EccDevice>, now: int)
    ensures AreEccEntries(ds, now, FlatMap(ds, EccLegs(now)))
  {
    if ds != [] {
      EccEntriesOf(ds[..|ds| - 1], now);
    }
  }

  lemma {:induction false} LinkEntriesOf(us: seq<string>, now: int)
    ensures AreLinkEntries(us, now, FlatMap(us, LinkLegs(now)))
  {
    if us != [] {
      LinkEntriesOf(us[..|us| - 1], now);
    }
  }

  /** The timeline of a window: a citation per source, then the legs of dmesg's fault XIDs, of
      NCCL's timeouts, of the ECC devices ds and the link devices us, then what was
      pre-formed. */
  ghost predicate IsTimeline(obs: seq<Observation>, now: int, ss: seq<SignalSource>, ds: seq<EccDevice>, us: seq<string>,
                             parts: Parts, timeline: seq<TimelineEntry>) {
    && timeline == parts.cites + parts.xids + parts.nccls + parts.eccs + parts.links + Preformed(obs)
    && AreCitations(ss, now, parts.cites)
    && AreXidEntries(DmesgXids(obs), now, parts.xids)
    && AreNcclEntries(LoggedNccls(obs), now, parts.nccls)
    && AreEccEntries(ds, now, parts.eccs)
    && AreLinkEntries(us, now, parts.links)
  }

  datatype Parts = Parts(cites: seq<TimelineEntry>, xids: seq<TimelineEntry>, nccls: seq<TimelineEntry>,
                         eccs: seq<TimelineEntry>, links: seq<TimelineEntry>)

  lemma TimelineParts(obs: seq<Observation>, now: int, ss: seq<SignalSource>, ds: seq<EccDevice>, us: seq<string>)
    returns (p: Parts)
    ensures p == Parts(FlatMap(ss, Citations(now)), FlatMap(FlatMap(obs, XidFacts), XidLegs(now)),
                       FlatMap(FlatMap(obs, NcclFacts), NcclLegs(now)), FlatMap(ds, EccLegs(now)), FlatMap(us, LinkLegs(now)))
    ensures IsTimeline(obs, now, ss, ds, us, p,
                       p.cites + p.xids + p.nccls + p.eccs + p.links + FlatMap(obs, Injected))
  {
    p := Parts(FlatMap(ss, Citations(now)), FlatMap(FlatMap(obs, XidFacts), XidLegs(now)),
               FlatMap(FlatMap(obs, NcclFacts), NcclLegs(now)), FlatMap(ds, EccLegs(now)), FlatMap(us, LinkLegs(now)));
    FactsAre(obs);
    InjectedAre(obs);
    CitationsOf(ss, now);
    XidEntriesOf(DmesgXids(obs), now);
    NcclEntriesOf(LoggedNccls(obs), now);
    EccEntriesOf(ds, now);
    LinkEntriesOf(us, now);
  }

  lemma Regrouped(p: Parts, rest: seq<TimelineEntry>)
    ensures p.cites + (p.xids + p.nccls + p.eccs + p.links) + rest == p.cites + p.xids + p.nccls + p.eccs + p.links + rest
  {
  }

  ghost predicate SourcesListed(obs: seq<Observation>, ss: seq<SignalSource>) {
    StrictlySorted(ss, IntLeq) && forall s :: s in ss <==> exists o :: o in obs && o.source == s
  }

  lemma SourcesOfWindow(obs: seq<Observation>, g: Gathered)
    requires g == GatherAll(obs)
    ensures SourcesListed(obs, SortedSources(g))
  {
    IntLeqIsTotal();
    forall s ensures s in SortedSources(g) <==> exists o :: o in obs && o.source == s {
      assert s in SortedSources(g) <==> s in Elements(SortedSources(g));
      SourcesAre(obs, s);
    }
  }

  /** The whole timeline, literally: nothing is missing and nothing is added. */
  lemma TimelineIsExact(agentId: string, now: int, window: int, obs: seq<Observation>, lib: Library, win: SignalWindow)
    returns (ds: seq<EccDevice>, us: seq<string>, parts: Parts)
    requires Normalized(agentId, now, window, obs, lib) == Ok(win)
    ensures IsTimeline(obs, now, win.sources, ds, us, parts, win.pack.timeline)
    ensures SourcesListed(obs, win.sources)
    ensures forall u, s :: EccDevice(u, s) in ds <==> EccLeg(obs, u, s)
    ensures forall u :: u in us <==> LinkLeg(obs, u)
    ensures StrictlySorted(DevicesOf(ds), StrLeq) && StrictlySorted(us, StrLeq)
  {
    ds, us, parts := TimelineOf(agentId, now, window, obs, lib, GatherAll(obs), win);
  }

  lemma TimelineOf(agentId: string, now: int, window: int, obs: seq<Observation>, lib: Library, g: Gathered, win: SignalWindow)
    returns (ds: seq<EccDevice>, us: seq<string>, parts: Parts)
    requires g == GatherAll(obs) && win == WindowFor(agentId, now, window, g, win.jobs, lib)
    ensures IsTimeline(obs, now, win.sources, ds, us, parts, win.pack.timeline)
    ensures SourcesListed(obs, win.sources)
    ensures forall u, s :: EccDevice(u, s) in ds <==> EccLeg(obs, u, s)
    ensures forall u :: u in us <==> LinkLeg(obs, u)
    ensures StrictlySorted(DevicesOf(ds), StrLeq) && StrictlySorted(us, StrLeq)
  {
    SourcesOfWindow(obs, g);
    ds, us := CounterLegsOf(obs, now);
    parts := TimelineParts(obs, now, win.sources, ds, us);
    Regrouped(parts, FlatMap(obs, Injected));
  }

  // ---- read off: no fault is lost, none is made up

  lemma {:induction false} DmesgXidMember(obs: seq<Observation>, o: Observation, x: Option<XidEvent>)
    requires o in obs && o.source == DMESG_XID && x in o.xidEvents
    ensures x in DmesgXids(obs)
  {
    if o != obs[|obs| - 1] {
      assert obs == obs[..|obs| - 1] + [obs[|obs| - 1]];
      DmesgXidMember(obs[..|obs| - 1], o, x);
    }
  }

  lemma {:induction false} LoggedNcclMember(obs: seq<Observation>, o: Observation, x: Option<NcclEvent>)
    requires o in obs && o.source == NCCL && x in o.ncclEvents
    ensures x in LoggedNccls(obs)
  {
    if o != obs[|obs| - 1] {
      assert obs == obs[..|obs| - 1] + [obs[|obs| - 1]];
      LoggedNcclMember(obs[..|obs| - 1], o, x);
    }
  }

  ghost predicate XidPublished(x: XidEvent, now: int, timeline: seq<TimelineEntry>) {
    exists e :: e in timeline && IsXidEntry(x, now, e)
  }

  ghost predicate NcclPublished(n: NcclEvent, now: int, timeline: seq<TimelineEntry>) {
    exists e :: e in timeline && IsNcclEntry(n, now, e)
  }

  /** Every fault XID that dmesg logged is published, and so is every NCCL timeout. */
  lemma FaultsArePublished(agentId: string, now: int, window: int, obs: seq<Observation>, lib: Library, win: SignalWindow,
                           o: Observation)
    requires Normalized(agentId, now, window, obs, lib) == Ok(win) && o in obs
    ensures o.source == DMESG_XID ==>
      forall x :: x in o.xidEvents && IsFault(x) ==> XidPublished(x.value, now, win.pack.timeline)
    ensures o.source == NCCL ==>
      forall n :: n in o.ncclEvents && IsTimeout(n) ==> NcclPublished(n.value, now, win.pack.timeline)
  {
    var ds, us, parts := TimelineIsExact(agentId, now, window, obs, lib, win);
    forall x | o.source == DMESG_XID && x in o.xidEvents && IsFault(x)
      ensures XidPublished(x.value, now, win.pack.timeline)
    {
      DmesgXidMember(obs, o, x);
      var e := XidEntryFor(DmesgXids(obs), now, parts.xids, x);
      assert e in win.pack.timeline;
    }
    forall n | o.source == NCCL && n in o.ncclEvents && IsTimeout(n)
      ensures NcclPublished(n.value, now, win.pack.timeline)
    {
      LoggedNcclMember(obs, o, n);
      var e := NcclEntryFor(LoggedNccls(obs), now, parts.nccls, n);
      assert e in win.pack.timeline;
    }
  }

  lemma XidEntryFor(xs: seq<Option<XidEvent>>, now: int, es: seq<TimelineEntry>, x: Option<XidEvent>) returns (e: TimelineEntry)
    requires AreXidEntries(xs, now, es) && x in xs && IsFault(x)
    ensures e in es && IsXidEntry(x.value, now, e)
  {
    SelectMember(xs, IsFault, x);
    var fs := Select(xs, IsFault);
    var i :| 0 <= i < |fs| && fs[i] == x;
    e := es[i];
  }

  lemma NcclEntryFor(ns: seq<Option<NcclEvent>>, now: int, es: seq<TimelineEntry>, n: Option<NcclEvent>)
    returns (e: TimelineEntry)
    requires AreNcclEntries(ns, now, es) && n in ns && IsTimeout(n)
    ensures e in es && IsNcclEntry(n.value, now, e)
  {
    SelectMember(ns, IsTimeout, n);
    var ts := Select(ns, IsTimeout);
    var i :| 0 <= i < |ts| && ts[i] == n;
    e := es[i];
  }

  lemma XidEntryOfPlainDevice(e: XidEvent, now: int, te: TimelineEntry)
    requires IsXidEntry(e, now, te) && e.xid == 79 && e.deviceUuid != "" && '.' !in e.deviceUuid
    ensures te == TimelineEntry(OwnTime(e.ts, now), DMESG_XID, "dmesg.xid79." + e.deviceUuid)
  {
    var t :| IsDeviceToken(e, t) && te.signalId == "dmesg.xid79." + t;
    assert t == e.deviceUuid;
  }

  lemma FallenIsFault(e: XidEvent)
    requires e.xid == 79
    ensures IsFault(Some(e))
  {
  }

  lemma FaultIsPublished(agentId: string, now: int, window: int, obs: seq<Observation>, lib: Library, win: SignalWindow,
                         o: Observation, x: Option<XidEvent>)
    requires Normalized(agentId, now, window, obs, lib) == Ok(win) && o in obs && o.source == DMESG_XID
    requires x in o.xidEvents && IsFault(x)
    ensures XidPublished(x.value, now, win.pack.timeline)
  {
    FaultsArePublished(agentId, now, window, obs, lib, win, o);
  }

  lemma PlainDeviceIsNamed(e: XidEvent, now: int, timeline: seq<TimelineEntry>)
    requires XidPublished(e, now, timeline) && e.xid == 79 && e.deviceUuid != "" && '.' !in e.deviceUuid
    ensures TimelineEntry(OwnTime(e.ts, now), DMESG_XID, "dmesg.xid79." + e.deviceUuid) in timeline
  {
    var te :| te in timeline && IsXidEntry(e, now, te);
    XidEntryOfPlainDevice(e, now, te);
  }

  /** A GPU that fell off the bus is published under its own id. */
  lemma FallenOffTheBus(agentId: string, now: int, window: int, obs: seq<Observation>, lib: Library, win: SignalWindow,
                        o: Observation, e: XidEvent)
    requires Normalized(agentId, now, window, obs, lib) == Ok(win) && o in obs && o.source == DMESG_XID
    requires Some(e) in o.xidEvents && e.xid == 79 && e.deviceUuid != "" && '.' !in e.deviceUuid
    ensures TimelineEntry(OwnTime(e.ts, now), DMESG_XID, "dmesg.xid79." + e.deviceUuid) in win.pack.timeline
  {
    FallenIsFault(e);
    FaultIsPublished(agentId, now, window, obs, lib, win, o, Some(e));
    PlainDeviceIsNamed(e, now, win.pack.timeline);
  }
}
