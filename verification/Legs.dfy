/** faultTimeline and its naming helpers (normalize.go): turning observed facts into
    the signal ids the fault gate matches on. */
module Legs {
  import opened Prelude
  import opened Evidence

  function SourceShort(s: SignalSource): string {
    if s == DCGM then "dcgm"
    else if s == DMESG_XID then "dmesg"
    else if s == NCCL then "nccl"
    else if s == PROMETHEUS then "prometheus"
    else if s == SCHEDULER then "scheduler"
    else if s == PROC then "proc"
    else "unspecified"
  }

  function Decimal(n: nat): string {
    if n < 10 then ['0' + n as char] else Decimal(n / 10) + ['0' + (n % 10) as char]
  }

  /** Dots separate the segments of a signal id; inside a token they become dashes. */
  function SanitizeToken(s: string): string {
    if s == "" then ""
    else SanitizeToken(s[..|s| - 1]) + [if s[|s| - 1] == '.' then '-' else s[|s| - 1]]
  }

  function XidDevToken(e: XidEvent): string {
    if e.deviceUuid != "" then SanitizeToken(e.deviceUuid) else "node"
  }

  function NcclScopeToken(e: NcclEvent): string {
    if e.communicatorId != "" then SanitizeToken(e.communicatorId)
    else if e.rank != 0 then "rank" + Decimal(e.rank)
    else "unknown"
  }

  const ECC_XIDS: set<nat> := {48, 63, 64, 94, 95}

  function OrNow(ts: Option<int>, now: int): Option<int> {
    if ts.Some? then ts else Some(now)
  }

  /** The signal id of a fault XID; none for XIDs the gate does not adjudicate. */
  function XidSignal(e: XidEvent): Option<string> {
    if e.xid == 79 then Some("dmesg.xid79." + XidDevToken(e))
    else if e.xid in ECC_XIDS then Some("dmesg.xid.ecc." + Decimal(e.xid) + "." + XidDevToken(e))
    else None
  }

  function XidLegOf(e: Option<XidEvent>, now: int): seq<TimelineEntry> {
    if e.None? || XidSignal(e.value).None? then []
    else [TimelineEntry(OrNow(e.value.ts, now), DMESG_XID, XidSignal(e.value).value)]
  }

  function NcclLegOf(e: Option<NcclEvent>, now: int): seq<TimelineEntry> {
    if e.None? || e.value.kind != OpTimeout then []
    else [TimelineEntry(OrNow(e.value.ts, now), NCCL, "nccl.timeout." + NcclScopeToken(e.value))]
  }

  /** A device whose double-bit ECC delta was observed, with the observing source. */
  datatype EccDevice = EccDevice(uuid: string, source: SignalSource)

  function EccLegOf(d: EccDevice, now: int): TimelineEntry {
    TimelineEntry(Some(now), d.source, "ecc.dbe." + d.uuid)
  }

  function LinkLegOf(uuid: string, now: int): TimelineEntry {
    TimelineEntry(Some(now), DCGM, "link.error." + uuid)
  }

  function XidLegs(now: int): Option<XidEvent> -> seq<TimelineEntry> { e => XidLegOf(e, now) }
  function NcclLegs(now: int): Option<NcclEvent> -> seq<TimelineEntry> { e => NcclLegOf(e, now) }
  function EccLegs(now: int): EccDevice -> seq<TimelineEntry> { d => [EccLegOf(d, now)] }
  function LinkLegs(now: int): string -> seq<TimelineEntry> { u => [LinkLegOf(u, now)] }

  method FaultTimeline(xids: seq<Option<XidEvent>>, nccls: seq<Option<NcclEvent>>,
                       eccDevices: seq<EccDevice>, linkDevices: seq<string>, now: int)
    returns (out: seq<TimelineEntry>)
    ensures out == FlatMap(xids, XidLegs(now)) + FlatMap(nccls, NcclLegs(now))
                   + FlatMap(eccDevices, EccLegs(now)) + FlatMap(linkDevices, LinkLegs(now))
  {
    out := AppendXidLegs([], xids, now);
    out := AppendNcclLegs(out, nccls, now);
    out := AppendCounterLegs(out, eccDevices, linkDevices, now);
  }

  method AppendXidLegs(base: seq<TimelineEntry>, xids: seq<Option<XidEvent>>, now: int)
    returns (out: seq<TimelineEntry>)
    ensures out == base + FlatMap(xids, XidLegs(now))
  {
    out := base;
    for i := 0 to |xids|
      invariant out == base + FlatMap(xids[..i], XidLegs(now))
    {
      FlatMapStep(xids, XidLegs(now), i);
      var e := xids[i];
      if e.None? {
        continue;
      }
      var signal := XidSignal(e.value);
      if signal.None? {
        continue;
      }
      out := out + [TimelineEntry(OrNow(e.value.ts, now), DMESG_XID, signal.value)];
    }
    FlatMapWhole(xids, XidLegs(now));
  }

  method AppendNcclLegs(base: seq<TimelineEntry>, nccls: seq<Option<NcclEvent>>, now: int)
    returns (out: seq<TimelineEntry>)
    ensures out == base + FlatMap(nccls, NcclLegs(now))
  {
    out := base;
    for i := 0 to |nccls|
      invariant out == base + FlatMap(nccls[..i], NcclLegs(now))
    {
      FlatMapStep(nccls, NcclLegs(now), i);
      var e := nccls[i];
      if e.None? || e.value.kind != OpTimeout {
        continue;
      }
      var id := "nccl.timeout." + NcclScopeToken(e.value);
      out := out + [TimelineEntry(OrNow(e.value.ts, now), NCCL, id)];
    }
    FlatMapWhole(nccls, NcclLegs(now));
  }

  method AppendCounterLegs(base: seq<TimelineEntry>, eccDevices: seq<EccDevice>, linkDevices: seq<string>, now: int)
    returns (out: seq<TimelineEntry>)
    ensures out == base + FlatMap(eccDevices, EccLegs(now)) + FlatMap(linkDevices, LinkLegs(now))
  {
    out := base;
    for i := 0 to |eccDevices|
      invariant out == base + FlatMap(eccDevices[..i], EccLegs(now))
    {
      FlatMapStep(eccDevices, EccLegs(now), i);
      out := out + [EccLegOf(eccDevices[i], now)];
    }
    FlatMapWhole(eccDevices, EccLegs(now));
    ghost var mid := out;
    for i := 0 to |linkDevices|
      invariant out == mid + FlatMap(linkDevices[..i], LinkLegs(now))
    {
      FlatMapStep(linkDevices, LinkLegs(now), i);
      out := out + [LinkLegOf(linkDevices[i], now)];
    }
    FlatMapWhole(linkDevices, LinkLegs(now));
  }

  // ---- the shape of a signal id

  lemma {:induction false} SanitizeKeepsAllButDots(s: string)
    ensures |SanitizeToken(s)| == |s|
    ensures forall i :: 0 <= i < |s| ==> SanitizeToken(s)[i] == if s[i] == '.' then '-' else s[i]
  {
    if s != "" {
      SanitizeKeepsAllButDots(s[..|s| - 1]);
    }
  }

  lemma {:induction false} DecimalHasNoDots(n: nat)
    ensures '.' !in Decimal(n)
  {
    if n >= 10 {
      DecimalHasNoDots(n / 10);
    }
  }

  /** No identity read from a log can add a dotted segment to a signal id: the
      device or scope is always its last segment. */
  lemma LogTokensAreOneSegment(x: XidEvent, n: NcclEvent)
    ensures '.' !in XidDevToken(x)
    ensures '.' !in NcclScopeToken(n)
  {
    SanitizeKeepsAllButDots(x.deviceUuid);
    SanitizeKeepsAllButDots(n.communicatorId);
    DecimalHasNoDots(n.rank);
    assert forall i :: 0 <= i < |"node"| ==> "node"[i] != '.';
    assert forall i :: 0 <= i < |"unknown"| ==> "unknown"[i] != '.';
    assert forall i :: 0 <= i < |"rank"| ==> "rank"[i] != '.';
  }
}
