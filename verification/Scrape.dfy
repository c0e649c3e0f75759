/** parseDCGMExposition (collectors_dcgm.go): from the samples of one scrape to one window
    per device. */
module Scrape {
  import opened Prelude
  import opened Evidence
  import opened Ordering
  import opened Text
  import Exposition
  import DcgmCounters

  /** What a metric name means to the collector. */
  datatype Kind = TensorActive | EccTotal | LinkErrors | Ignored
  type Classifier = string -> Kind

  function DcgmKind(symbol: string): Kind {
    if symbol == "DCGM_FI_PROF_PIPE_TENSOR_ACTIVE" then TensorActive
    else if symbol == "DCGM_FI_DEV_ECC_DBE_VOL_TOTAL" then EccTotal
    else if symbol == "DCGM_FI_DEV_NVLINK_CRC_FLIT_ERROR_COUNT_TOTAL"
         || symbol == "DCGM_FI_DEV_NVLINK_REPLAY_ERROR_COUNT_TOTAL"
         || symbol == "DCGM_FI_DEV_PCIE_REPLAY_COUNTER" then LinkErrors
    else Ignored
  }

  function Label(labels: map<string, string>, k: string): string {
    if k in labels then labels[k] else ""
  }

  /** One sample, attributed to a device ("" if it names none). */
  datatype Reading = Reading(uuid: string, node: string, model: string, kind: Kind, value: real)

  function Attributed(s: Exposition.Sample, kinds: Classifier, fallback: string): Reading {
    var uuid := if Label(s.labels, "UUID") != "" then Label(s.labels, "UUID") else Label(s.labels, "gpu_uuid");
    var node := if Label(s.labels, "Hostname") != "" then Label(s.labels, "Hostname") else fallback;
    Reading(uuid, node, Label(s.labels, "modelName"), kinds(s.name), s.value)
  }

  // ---- one device, sample by sample

  datatype Acc = Acc(node: string, model: string, tensorSecs: Option<real>, ecc: Option<nat>, link: Option<nat>)
  const EMPTY: Acc := Acc("", "", None, None, None)

  function FirstOf(a: string, b: string): string { if a == "" then b else a }

  /** A ratio over the window. */
  function Seconds(r: Reading, seconds: real): real { r.value * seconds }

  function TensorAfter(t: Option<real>, r: Reading, seconds: real): Option<real> {
    if r.kind == TensorActive then Some(Seconds(r, seconds)) else t
  }

  function EccAfter(c: Option<nat>, r: Reading): Option<nat> {
    if r.kind == EccTotal && r.value >= 0.0 then Some(r.value.Floor) else c
  }

  function LinkAfter(c: Option<nat>, r: Reading): Option<nat> {
    if r.kind == LinkErrors && r.value >= 0.0 then Some((if c.Some? then c.value else 0) + r.value.Floor) else c
  }

  function AccAfter(seconds: real): (Acc, Reading) -> Acc {
    (a: Acc, r: Reading) => Acc(FirstOf(a.node, r.node), FirstOf(a.model, r.model), TensorAfter(a.tensorSecs, r, seconds),
                                EccAfter(a.ecc, r), LinkAfter(a.link, r))
  }

  /** The counts of one kind, fractions dropped; negative samples are not counts. */
  function CountsOf(k: Kind): Reading -> seq<nat> {
    (r: Reading) => if r.kind == k && r.value >= 0.0 then [r.value.Floor] else []
  }

  function TensorSecsOf(seconds: real): Reading -> seq<real> {
    (r: Reading) => if r.kind == TensorActive then [Seconds(r, seconds)] else []
  }

  function Nodes(r: Reading): seq<string> { if r.node != "" then [r.node] else [] }
  function Models(r: Reading): seq<string> { if r.model != "" then [r.model] else [] }

  function Last<T>(s: seq<T>): Option<T> { if s == [] then None else Some(s[|s| - 1]) }
  function Head(s: seq<string>): string { if s == [] then "" else s[0] }
  function Total(s: seq<nat>): Option<nat> { if s == [] then None else Some(DcgmCounters.Sum(s)) }

  /** What a device's samples amount to: first names, last gauge and ECC total, and the sum
      of the link counters. */
  function Summary(seconds: real, rs: seq<Reading>): Acc {
    Acc(Head(FlatMap(rs, Nodes)), Head(FlatMap(rs, Models)), Last(FlatMap(rs, TensorSecsOf(seconds))),
        Last(FlatMap(rs, CountsOf(EccTotal))), Total(FlatMap(rs, CountsOf(LinkErrors))))
  }

  lemma EccStep(ecc: seq<nat>, r: Reading)
    ensures Last(ecc + CountsOf(EccTotal)(r)) == EccAfter(Last(ecc), r)
  {
    assert ecc + [] == ecc;
  }

  lemma LinkStep(links: seq<nat>, r: Reading)
    ensures Total(links + CountsOf(LinkErrors)(r)) == LinkAfter(Total(links), r)
  {
    if r.kind == LinkErrors && r.value >= 0.0 {
      assert (links + [r.value.Floor])[..|links|] == links;
    } else {
      assert links + [] == links;
    }
  }

  lemma TensorStep(seconds: real, ts: seq<real>, r: Reading)
    ensures Last(ts + TensorSecsOf(seconds)(r)) == TensorAfter(Last(ts), r, seconds)
  {
    assert ts + [] == ts;
  }

  function AccOf(seconds: real, rs: seq<Reading>): Acc {
    FoldLeft(AccAfter(seconds), EMPTY, rs)
  }

  lemma {:induction false} EccOfAcc(seconds: real, rs: seq<Reading>)
    ensures AccOf(seconds, rs).ecc == Last(FlatMap(rs, CountsOf(EccTotal)))
  {
    if rs != [] {
      EccOfAcc(seconds, rs[..|rs| - 1]);
      EccStep(FlatMap(rs[..|rs| - 1], CountsOf(EccTotal)), rs[|rs| - 1]);
    }
  }

  lemma {:induction false} LinkOfAcc(seconds: real, rs: seq<Reading>)
    ensures AccOf(seconds, rs).link == Total(FlatMap(rs, CountsOf(LinkErrors)))
  {
    if rs != [] {
      LinkOfAcc(seconds, rs[..|rs| - 1]);
      LinkStep(FlatMap(rs[..|rs| - 1], CountsOf(LinkErrors)), rs[|rs| - 1]);
    }
  }

  lemma {:induction false} TensorOfAcc(seconds: real, rs: seq<Reading>)
    ensures AccOf(seconds, rs).tensorSecs == Last(FlatMap(rs, TensorSecsOf(seconds)))
  {
    if rs != [] {
      TensorOfAcc(seconds, rs[..|rs| - 1]);
      TensorStep(seconds, FlatMap(rs[..|rs| - 1], TensorSecsOf(seconds)), rs[|rs| - 1]);
    }
  }

  lemma {:induction false} NodeOfAcc(seconds: real, rs: seq<Reading>)
    ensures AccOf(seconds, rs).node == Head(FlatMap(rs, Nodes)) && "" !in FlatMap(rs, Nodes)
  {
    if rs != [] {
      NodeOfAcc(seconds, rs[..|rs| - 1]);
      NameStep(FlatMap(rs[..|rs| - 1], Nodes), rs[|rs| - 1].node);
    }
  }

  lemma {:induction false} ModelOfAcc(seconds: real, rs: seq<Reading>)
    ensures AccOf(seconds, rs).model == Head(FlatMap(rs, Models)) && "" !in FlatMap(rs, Models)
  {
    if rs != [] {
      ModelOfAcc(seconds, rs[..|rs| - 1]);
      NameStep(FlatMap(rs[..|rs| - 1], Models), rs[|rs| - 1].model);
    }
  }

  lemma NameStep(names: seq<string>, name: string)
    requires "" !in names
    ensures Head(names + if name != "" then [name] else []) == FirstOf(Head(names), name)
  {
    assert names + [] == names;
  }

  lemma AccIsSummary(seconds: real, rs: seq<Reading>)
    ensures AccOf(seconds, rs) == Summary(seconds, rs)
  {
    EccOfAcc(seconds, rs);
    LinkOfAcc(seconds, rs);
    TensorOfAcc(seconds, rs);
    NodeOfAcc(seconds, rs);
    ModelOfAcc(seconds, rs);
  }

  // ---- all devices of a scrape

  type Table = map<string, Acc>

  function AccIn(t: Table, u: string): Acc { if u in t then t[u] else EMPTY }

  /** A reading without a device cannot be attributed. */
  function TableAfter(seconds: real): (Table, Reading) -> Table {
    (t: Table, r: Reading) => if r.uuid == "" then t else t[r.uuid := AccAfter(seconds)(AccIn(t, r.uuid), r)]
  }

  function Of(u: string): Reading -> bool { (r: Reading) => r.uuid == u }

  /** The devices of a table do not mix: each holds what its own readings amount to. */
  lemma {:induction false} TableOfReadings(seconds: real, rs: seq<Reading>, u: string)
    requires u != ""
    ensures var t := FoldLeft(TableAfter(seconds), map[], rs);
            && (u in t <==> exists r :: r in rs && r.uuid == u)
            && AccIn(t, u) == AccOf(seconds, Select(rs, Of(u)))
            && "" !in t
  {
    if rs != [] {
      var n := |rs| - 1;
      TableOfReadings(seconds, rs[..n], u);
      assert rs == rs[..n] + [rs[n]];
      OwnStep(seconds, Select(rs[..n], Of(u)), rs[n], u);
    }
  }

  lemma OwnStep(seconds: real, own: seq<Reading>, r: Reading, u: string)
    ensures AccOf(seconds, own + if r.uuid == u then [r] else [])
         == if r.uuid == u then AccAfter(seconds)(AccOf(seconds, own), r) else AccOf(seconds, own)
  {
    if r.uuid == u {
      assert (own + [r])[..|own|] == own;
    } else {
      assert own + [] == own;
    }
  }

  function Or0<T>(o: Option<T>, zero: T): T { if o.Some? then o.value else zero }

  /** The window of a device; what no sample told stays unknown. */
  function WindowOf(u: string, seconds: real, a: Acc): DeviceWindow {
    DeviceWindow(u, a.node, a.model, seconds, 0.0, false, Or0(a.tensorSecs, 0.0), a.tensorSecs.Some?,
                 0.0, false, 0.0, false, Or0(a.ecc, 0), a.ecc.Some?, Or0(a.link, 0), a.link.Some?)
  }

  /** The window that a device's own readings amount to. */
  function Described(seconds: real, rs: seq<Reading>, u: string): DeviceWindow {
    WindowOf(u, seconds, Summary(seconds, Select(rs, Of(u))))
  }

  ghost predicate Listed(ws: seq<DeviceWindow>, u: string) {
    exists i :: 0 <= i < |ws| && ws[i].uuid == u
  }

  ghost predicate Mentioned(rs: seq<Reading>, u: string) {
    exists r :: r in rs && r.uuid == u
  }

  /** ws lists the devices of a scrape: each that a reading names once, in ascending order,
      with the window its own readings amount to. */
  ghost predicate IsScrape(seconds: real, rs: seq<Reading>, ws: seq<DeviceWindow>) {
    && (forall i, j :: 0 <= i < j < |ws| ==> StrLeq(ws[i].uuid, ws[j].uuid) && ws[i].uuid != ws[j].uuid)
    && (forall u :: u != "" ==> (Listed(ws, u) <==> Mentioned(rs, u)))
    && (forall i :: 0 <= i < |ws| ==> ws[i].uuid != "" && ws[i] == Described(seconds, rs, ws[i].uuid))
  }

  method ParseDcgmExposition(samples: seq<Exposition.Sample>, kinds: Classifier, seconds: real, fallback: string)
    returns (ws: seq<DeviceWindow>)
    ensures IsScrape(seconds, ReadingsOf(samples, kinds, fallback), ws)
  {
    var devs: Table := map[];
    ghost var rs := ReadingsOf(samples, kinds, fallback);
    for i := 0 to |samples|
      invariant devs == FoldLeft(TableAfter(seconds), map[], rs[..i])
    {
      FoldLeftStep(TableAfter(seconds), map[], rs, i);
      var r := Attributed(samples[i], kinds, fallback);
      if r.uuid == "" {
        continue;
      }
      var a := Accumulate(seconds, AccIn(devs, r.uuid), r);
      devs := devs[r.uuid := a];
    }
    assert rs[..|rs|] == rs;
    StrLeqIsTotal();
    var uuids := SortedKeys(devs.Keys, StrLeq);
    ws := ListWindows(devs, uuids, seconds);
    ListingIsScrape(seconds, rs, devs, uuids, ws);
  }

  function ReadingsOf(samples: seq<Exposition.Sample>, kinds: Classifier, fallback: string): seq<Reading> {
    seq(|samples|, i requires 0 <= i < |samples| => Attributed(samples[i], kinds, fallback))
  }

  /** One sample of a device. */
  method Accumulate(seconds: real, a: Acc, r: Reading) returns (b: Acc)
    ensures b == AccAfter(seconds)(a, r)
  {
    b := a;
    if r.node != "" && b.node == "" {
      b := b.(node := r.node);
    }
    if r.model != "" && b.model == "" {
      b := b.(model := r.model);
    }
    match r.kind {
      case TensorActive =>
        b := b.(tensorSecs := Some(Seconds(r, seconds)));
      case EccTotal =>
        if r.value >= 0.0 {
          b := b.(ecc := Some(r.value.Floor));
        }
      case LinkErrors =>
        if r.value >= 0.0 {
          b := b.(link := Some(Or0(b.link, 0) + r.value.Floor));
        }
      case Ignored =>
    }
  }

  method ListWindows(devs: Table, uuids: seq<string>, seconds: real) returns (ws: seq<DeviceWindow>)
    requires forall u :: u in uuids ==> u in devs
    ensures |ws| == |uuids| && forall i :: 0 <= i < |ws| ==> ws[i] == WindowOf(uuids[i], seconds, AccIn(devs, uuids[i]))
  {
    ws := [];
    for i := 0 to |uuids|
      invariant |ws| == i && forall k :: 0 <= k < i ==> ws[k] == WindowOf(uuids[k], seconds, AccIn(devs, uuids[k]))
    {
      ws := ws + [WindowOf(uuids[i], seconds, devs[uuids[i]])];
    }
  }

  lemma ListingIsScrape(seconds: real, rs: seq<Reading>, devs: Table, uuids: seq<string>, ws: seq<DeviceWindow>)
    requires devs == FoldLeft(TableAfter(seconds), map[], rs)
    requires Sorts(uuids, devs.Keys, StrLeq)
    requires |ws| == |uuids| && forall i :: 0 <= i < |ws| ==> ws[i] == WindowOf(uuids[i], seconds, AccIn(devs, uuids[i]))
    ensures IsScrape(seconds, rs, ws)
  {
    assert forall u :: u in uuids <==> u in Elements(uuids);
    TableOfReadings(seconds, rs, "x");
    forall u | u != "" ensures Listed(ws, u) <==> Mentioned(rs, u) {
      TableOfReadings(seconds, rs, u);
      if u in uuids {
        var i :| 0 <= i < |uuids| && uuids[i] == u;
        assert ws[i].uuid == u;
      }
    }
    forall i | 0 <= i < |ws| ensures ws[i].uuid != "" && ws[i] == Described(seconds, rs, ws[i].uuid) {
      assert uuids[i] in devs;
      TableOfReadings(seconds, rs, uuids[i]);
      AccIsSummary(seconds, Select(rs, Of(uuids[i])));
    }
  }

  /** No number is invented: a scrape knows a device's counter iff a non-negative sample
      of it exists, and never a peak, price or achieved work. */
  lemma KnownOnlyIfSampled(seconds: real, rs: seq<Reading>, ws: seq<DeviceWindow>, i: nat)
    requires IsScrape(seconds, rs, ws) && i < |ws|
    ensures var w := ws[i];
            && !w.peakKnown && !w.costKnown && !w.achievedKnown
            && (w.eccKnown <==> exists r :: r in rs && r.uuid == w.uuid && r.kind == EccTotal && r.value >= 0.0)
            && (w.linkKnown <==> exists r :: r in rs && r.uuid == w.uuid && r.kind == LinkErrors && r.value >= 0.0)
  {
    var own := Select(rs, Of(ws[i].uuid));
    CountedIff(own, EccTotal);
    CountedIff(own, LinkErrors);
    forall r { SelectMember(rs, Of(ws[i].uuid), r); }
  }

  lemma {:induction false} CountedIff(rs: seq<Reading>, k: Kind)
    ensures FlatMap(rs, CountsOf(k)) != [] <==> exists r :: r in rs && r.kind == k && r.value >= 0.0
  {
    if rs != [] {
      var n := |rs| - 1;
      CountedIff(rs[..n], k);
      assert rs == rs[..n] + [rs[n]];
    }
  }

  /** A scrape reads each counter of a device at most once, so the deltas of a run of
      scrapes are taken between scrapes, never within one. */
  lemma {:induction false} OneReadingPerScrape(ws: seq<DeviceWindow>, u: string,
                                               read: DeviceWindow -> DcgmCounters.Sample)
    requires forall i, j :: 0 <= i < j < |ws| ==> ws[i].uuid != ws[j].uuid
    requires forall w :: read(w).uuid == w.uuid
    ensures |Select(DcgmCounters.Samples(ws, read), DcgmCounters.OfDevice(u))| <= 1
    ensures (forall i :: 0 <= i < |ws| ==> ws[i].uuid != u)
            ==> Select(DcgmCounters.Samples(ws, read), DcgmCounters.OfDevice(u)) == []
  {
    if ws != [] {
      var n := |ws| - 1;
      OneReadingPerScrape(ws[..n], u, read);
      var ss := DcgmCounters.Samples(ws, read);
      assert ss[..n] == DcgmCounters.Samples(ws[..n], read);
      assert ss[n] == read(ws[n]);
    }
  }

  /** That is so of both counters. */
  lemma CountersReadOnce(seconds: real, rs: seq<Reading>, ws: seq<DeviceWindow>, u: string)
    requires IsScrape(seconds, rs, ws)
    ensures |Select(DcgmCounters.Samples(ws, DcgmCounters.DbeSample), DcgmCounters.OfDevice(u))| <= 1
    ensures |Select(DcgmCounters.Samples(ws, DcgmCounters.LinkSample), DcgmCounters.OfDevice(u))| <= 1
  {
    OneReadingPerScrape(ws, u, DcgmCounters.DbeSample);
    OneReadingPerScrape(ws, u, DcgmCounters.LinkSample);
  }

  // ---- from the text of a scrape

  /** What a trimmed line reads as. */
  type LineReader = string -> Option<Exposition.Sample>

  /** read is the parser, numbers being read by float. */
  ghost predicate ReadAs(read: LineReader, float: Exposition.FloatParser, line: string) {
    read(line) == Exposition.SampleOf(line, float)
  }

  function ReaderOf(float: Exposition.FloatParser): (read: LineReader)
    ensures forall line :: ReadAs(read, float, line)
  {
    (line: string) => Exposition.SampleOf(line, float)
  }

  /** The sample on a line; comments, blank and malformed lines have none. */
  function LineSample(read: LineReader): string -> seq<Exposition.Sample> {
    (text: string) =>
      var line := TrimSpace(text);
      if line == "" || HasPrefix(line, "#") || read(line).None? then [] else [read(line).value]
  }

  method AppendSample(base: seq<Exposition.Sample>, text: string, float: Exposition.FloatParser, ghost read: LineReader)
    returns (out: seq<Exposition.Sample>)
    requires forall line :: ReadAs(read, float, line)
    ensures out == base + LineSample(read)(text)
  {
    out := base;
    var line := TrimSpace(text);
    if line == "" || HasPrefix(line, "#") {
      return;
    }
    var s := Exposition.ParseExpositionLine(line, float);
    assert ReadAs(read, float, line);
    if s.None? {
      return;
    }
    out := out + [s.value];
  }

  method ScanExposition(lines: seq<string>, float: Exposition.FloatParser, ghost read: LineReader)
    returns (out: seq<Exposition.Sample>)
    requires forall line :: ReadAs(read, float, line)
    ensures out == FlatMap(lines, LineSample(read))
  {
    out := [];
    for i := 0 to |lines|
      invariant out == FlatMap(lines[..i], LineSample(read))
    {
      FlatMapStep(lines, LineSample(read), i);
      out := AppendSample(out, lines[i], float, read);
    }
    FlatMapWhole(lines, LineSample(read));
  }

  /** A sample to be printed. */
  datatype Entry = Entry(name: string, pairs: seq<Exposition.Pair>, token: string)

  predicate Printable(e: Entry) {
    && e.name != "" && e.name[0] != '#' && Trimmed(e.name) && '{' !in e.name
    && Exposition.Printable(e.pairs) && Exposition.PrintableToken(e.token, "")
  }

  function Printed(e: Entry): string {
    Exposition.PrintedLine(e.name, e.pairs, e.token, "")
  }

  function Meant(float: Exposition.FloatParser): Entry -> seq<Exposition.Sample> {
    (e: Entry) =>
      if float(e.token).None? then []
      else [Exposition.Sample(e.name, Exposition.Denoted(e.pairs), float(e.token).value)]
  }

  lemma PrintedLineIsTrimmed(e: Entry, line: string)
    requires Printable(e) && line == Printed(e)
    ensures line != "" && !HasPrefix(line, "#") && TrimSpace(line) == line
  {
    var body := e.name + "{" + Exposition.PrintedLabels(e.pairs) + "} ";
    assert line == body + e.token;
    assert body[0] == e.name[0];
    TrimmedIsFixed(line);
  }

  lemma EntryReads(e: Entry, line: string, float: Exposition.FloatParser)
    requires Printable(e) && line == Printed(e)
    ensures var s := Exposition.SampleOf(line, float);
            Meant(float)(e) == if s.None? then [] else [s.value]
  {
    Exposition.LineRoundTrip(e.name, e.pairs, e.token, "");
  }

  lemma EntryIsReadBack(e: Entry, line: string, float: Exposition.FloatParser, read: LineReader)
    requires Printable(e) && line == Printed(e) && ReadAs(read, float, line)
    ensures LineSample(read)(line) == Meant(float)(e)
  {
    PrintedLineIsTrimmed(e, line);
    EntryReads(e, line, float);
  }

  /** Scanning a printed exposition gives back its samples, in order. */
  lemma {:induction false} ExpositionRoundTrip(es: seq<Entry>, lines: seq<string>, float: Exposition.FloatParser,
                                               read: LineReader)
    requires forall line :: ReadAs(read, float, line)
    requires |lines| == |es| && forall i :: 0 <= i < |es| ==> Printable(es[i]) && lines[i] == Printed(es[i])
    ensures FlatMap(lines, LineSample(read)) == FlatMap(es, Meant(float))
  {
    if es != [] {
      var n := |es| - 1;
      ExpositionRoundTrip(es[..n], lines[..n], float, read);
      assert ReadAs(read, float, lines[n]);
      EntryIsReadBack(es[n], lines[n], float, read);
    }
  }

  // ---- one collection

  /** ws is what the lines of a scrape say. */
  ghost predicate ReadsAs(lines: seq<string>, seconds: real, fallback: string, float: Exposition.FloatParser,
                          ws: seq<DeviceWindow>) {
    exists read :: (forall line :: ReadAs(read, float, line))
                   && IsScrape(seconds, ReadingsOf(FlatMap(lines, LineSample(read)), DcgmKind, fallback), ws)
  }

  method ParseLines(lines: seq<string>, seconds: real, fallback: string, float: Exposition.FloatParser)
    returns (ws: seq<DeviceWindow>)
    ensures ReadsAs(lines, seconds, fallback, float, ws)
  {
    ghost var read := ReaderOf(float);
    var samples := ScanExposition(lines, float, read);
    ws := ParseDcgmExposition(samples, DcgmKind, seconds, fallback);
  }

  /** out is ws with both counters turned into deltas against the baselines dbe and link. */
  ghost predicate IsRebased(ws: seq<DeviceWindow>, out: seq<DeviceWindow>, dbe: map<string, nat>, link: map<string, nat>) {
    && DcgmCounters.Samples(out, DcgmCounters.DbeSample)
       == DcgmCounters.Deltas(dbe, DcgmCounters.Samples(ws, DcgmCounters.DbeSample))
    && DcgmCounters.Samples(out, DcgmCounters.LinkSample)
       == DcgmCounters.Deltas(link, DcgmCounters.Samples(ws, DcgmCounters.LinkSample))
  }

  method Rebase(c: DcgmCounters.DcgmExporterCollector, ws: seq<DeviceWindow>) returns (out: seq<DeviceWindow>)
    modifies c`prevDbe, c`prevLinkErr
    ensures IsRebased(ws, out, old(c.prevDbe), old(c.prevLinkErr))
    ensures c.prevDbe == DcgmCounters.Baselines(old(c.prevDbe), DcgmCounters.Samples(ws, DcgmCounters.DbeSample))
    ensures c.prevLinkErr == DcgmCounters.Baselines(old(c.prevLinkErr), DcgmCounters.Samples(ws, DcgmCounters.LinkSample))
  {
    var a := new DeviceWindow[|ws|](i requires 0 <= i < |ws| => ws[i]);
    assert a[..] == ws;
    c.ApplyDeltas(a);
    out := a[..];
  }

  /** One collection: nothing if the gate is shut, else the windows of the scrape with both
      counters turned into deltas against the scrapes before. */
  method CollectScrape(c: DcgmCounters.DcgmExporterCollector, now: int, lines: seq<string>, seconds: real,
                       fallback: string, float: Exposition.FloatParser)
    returns (out: Option<seq<DeviceWindow>>, ghost ws: seq<DeviceWindow>)
    requires c.Valid()
    modifies c
    ensures c.Valid()
    ensures c.accepted == if out.Some? && c.profilingBurst then old(c.accepted) + [now] else old(c.accepted)
    ensures !c.profilingBurst ==> out.Some?
    ensures out.None? ==> c.prevDbe == old(c.prevDbe) && c.prevLinkErr == old(c.prevLinkErr)
    ensures out.Some? ==> ReadsAs(lines, seconds, fallback, float, ws)
                          && IsRebased(ws, out.value, old(c.prevDbe), old(c.prevLinkErr))
    ensures out.Some? ==>
      && c.prevDbe == DcgmCounters.Baselines(old(c.prevDbe), DcgmCounters.Samples(ws, DcgmCounters.DbeSample))
      && c.prevLinkErr == DcgmCounters.Baselines(old(c.prevLinkErr), DcgmCounters.Samples(ws, DcgmCounters.LinkSample))
  {
    var allowed := c.ScrapeAllowed(now);
    if !allowed {
      return None, [];
    }
    var windows := ParseLines(lines, seconds, fallback, float);
    var rebased := Rebase(c, windows);
    out, ws := Some(rebased), windows;
  }

  // ---- runs of collections

  /** The readings of one counter over a list of scrapes. */
  function AllSamples(wss: seq<seq<DeviceWindow>>, read: DeviceWindow -> DcgmCounters.Sample): seq<DcgmCounters.Sample> {
    if wss == [] then []
    else AllSamples(wss[..|wss| - 1], read) + DcgmCounters.Samples(wss[|wss| - 1], read)
  }

  /** outs are the windows wss with a counter turned into deltas from the first scrape on. */
  ghost predicate RunOf(wss: seq<seq<DeviceWindow>>, outs: seq<seq<DeviceWindow>>, read: DeviceWindow -> DcgmCounters.Sample) {
    |outs| == |wss| && AllSamples(outs, read) == DcgmCounters.Deltas(map[], AllSamples(wss, read))
  }

  function BaselinesOf(wss: seq<seq<DeviceWindow>>, read: DeviceWindow -> DcgmCounters.Sample): map<string, nat> {
    DcgmCounters.Baselines(map[], AllSamples(wss, read))
  }

  lemma AllSamplesStep(wss: seq<seq<DeviceWindow>>, ws: seq<DeviceWindow>, read: DeviceWindow -> DcgmCounters.Sample)
    ensures AllSamples(wss + [ws], read) == AllSamples(wss, read) + DcgmCounters.Samples(ws, read)
  {
    assert (wss + [ws])[..|wss|] == wss;
  }

  lemma RunStep(wss: seq<seq<DeviceWindow>>, outs: seq<seq<DeviceWindow>>, ws: seq<DeviceWindow>, out: seq<DeviceWindow>,
                read: DeviceWindow -> DcgmCounters.Sample)
    requires RunOf(wss, outs, read)
    requires DcgmCounters.Samples(out, read) == DcgmCounters.Deltas(BaselinesOf(wss, read), DcgmCounters.Samples(ws, read))
    ensures RunOf(wss + [ws], outs + [out], read)
    ensures BaselinesOf(wss + [ws], read) == DcgmCounters.Baselines(BaselinesOf(wss, read), DcgmCounters.Samples(ws, read))
  {
    AllSamplesStep(wss, ws, read);
    AllSamplesStep(outs, out, read);
    DcgmCounters.DeltasOfTwoScrapes(map[], AllSamples(wss, read), DcgmCounters.Samples(ws, read));
    FoldLeftConcat(DcgmCounters.Baseline, map[], AllSamples(wss, read), DcgmCounters.Samples(ws, read));
  }

  /** What one collection is given: the gate's clock reading and the lines of the endpoint. */
  datatype Input = Input(now: int, lines: seq<string>)

  /** The i-th collection let through read wss[i]. */
  ghost predicate ThroughAt(ins: seq<Input>, seconds: real, fallback: string, float: Exposition.FloatParser,
                            k: nat, ws: seq<DeviceWindow>) {
    k < |ins| && ReadsAs(ins[k].lines, seconds, fallback, float, ws)
  }

  /** The collections of ins that were let through, in order, and what they read. */
  ghost predicate Through(ins: seq<Input>, seconds: real, fallback: string, float: Exposition.FloatParser,
                          ks: seq<nat>, wss: seq<seq<DeviceWindow>>) {
    && |ks| == |wss|
    && (forall i, j :: 0 <= i < j < |ks| ==> ks[i] < ks[j])
    && forall i :: 0 <= i < |ks| ==> ThroughAt(ins, seconds, fallback, float, ks[i], wss[i])
  }

  predicate Within(ks: seq<nat>, n: nat) {
    forall i :: 0 <= i < |ks| ==> ks[i] < n
  }

  lemma ThroughIsWithin(ins: seq<Input>, seconds: real, fallback: string, float: Exposition.FloatParser,
                        ks: seq<nat>, wss: seq<seq<DeviceWindow>>)
    requires Through(ins, seconds, fallback, float, ks, wss)
    ensures Within(ks, |ins|)
  {
    assert forall i :: 0 <= i < |ks| ==> ThroughAt(ins, seconds, fallback, float, ks[i], wss[i]);
  }

  function Times(ins: seq<Input>, ks: seq<nat>): seq<int>
    requires Within(ks, |ins|)
  {
    seq(|ks|, i requires 0 <= i < |ks| => ins[ks[i]].now)
  }

  lemma ThroughMore(ins: seq<Input>, seconds: real, fallback: string, float: Exposition.FloatParser,
                    ks: seq<nat>, wss: seq<seq<DeviceWindow>>, k: nat)
    requires k < |ins| && Through(ins[..k], seconds, fallback, float, ks, wss)
    ensures Through(ins[..k + 1], seconds, fallback, float, ks, wss)
  {
    forall i | 0 <= i < |ks| ensures ThroughAt(ins[..k + 1], seconds, fallback, float, ks[i], wss[i]) {
      assert ThroughAt(ins[..k], seconds, fallback, float, ks[i], wss[i]);
      assert ins[..k + 1][ks[i]] == ins[..k][ks[i]];
    }
  }

  lemma ThroughStep(ins: seq<Input>, seconds: real, fallback: string, float: Exposition.FloatParser,
                    ks: seq<nat>, wss: seq<seq<DeviceWindow>>, k: nat, ws: seq<DeviceWindow>)
    requires k < |ins| && Through(ins[..k], seconds, fallback, float, ks, wss)
    requires ReadsAs(ins[k].lines, seconds, fallback, float, ws)
    ensures Through(ins[..k + 1], seconds, fallback, float, ks + [k], wss + [ws])
  {
    ThroughMore(ins, seconds, fallback, float, ks, wss, k);
    ThroughIsWithin(ins[..k], seconds, fallback, float, ks, wss);
    assert ThroughAt(ins[..k + 1], seconds, fallback, float, k, ws);
    forall i | 0 <= i < |ks| + 1 ensures ThroughAt(ins[..k + 1], seconds, fallback, float, (ks + [k])[i], (wss + [ws])[i]) {
      assert i < |ks| ==> ThroughAt(ins[..k + 1], seconds, fallback, float, ks[i], wss[i]);
    }
  }

  lemma TimesStep(ins: seq<Input>, ks: seq<nat>, k: nat)
    requires k < |ins| && Within(ks, k)
    ensures Times(ins[..k + 1], ks) == Times(ins[..k], ks)
    ensures Within(ks + [k], k + 1) && Times(ins[..k + 1], ks + [k]) == Times(ins[..k], ks) + [ins[k].now]
  {
  }

  /** The collector after the collections that read wss and reported outs. */
  ghost predicate Collected(c: DcgmCounters.DcgmExporterCollector, wss: seq<seq<DeviceWindow>>, outs: seq<seq<DeviceWindow>>)
    reads c
  {
    && RunOf(wss, outs, DcgmCounters.DbeSample) && c.prevDbe == BaselinesOf(wss, DcgmCounters.DbeSample)
    && RunOf(wss, outs, DcgmCounters.LinkSample) && c.prevLinkErr == BaselinesOf(wss, DcgmCounters.LinkSample)
  }

  method CollectNext(c: DcgmCounters.DcgmExporterCollector, i: Input, seconds: real, fallback: string,
                     float: Exposition.FloatParser, ghost wss: seq<seq<DeviceWindow>>, outs: seq<seq<DeviceWindow>>)
    returns (outs': seq<seq<DeviceWindow>>, ghost more: Option<seq<DeviceWindow>>)
    requires c.Valid() && Collected(c, wss, outs)
    modifies c
    ensures c.Valid() && Collected(c, if more.Some? then wss + [more.value] else wss, outs')
    ensures more.Some? ==> ReadsAs(i.lines, seconds, fallback, float, more.value)
    ensures c.accepted == if more.Some? && c.profilingBurst then old(c.accepted) + [i.now] else old(c.accepted)
    ensures !c.profilingBurst ==> more.Some?
    ensures more.None? ==> outs' == outs
  {
    ghost var ws;
    var out;
    out, ws := CollectScrape(c, i.now, i.lines, seconds, fallback, float);
    if out.None? {
      return outs, None;
    }
    RunStep(wss, outs, ws, out.value, DcgmCounters.DbeSample);
    RunStep(wss, outs, ws, out.value, DcgmCounters.LinkSample);
    outs', more := outs + [out.value], Some(ws);
  }

  /** Of the first k collections those numbered ks were let through: in burst mode those the
      gate accepted, else all. */
  ghost predicate LetThrough(ins: seq<Input>, k: nat, seconds: real, fallback: string, float: Exposition.FloatParser,
                             burst: bool, accepted: seq<int>, ks: seq<nat>, wss: seq<seq<DeviceWindow>>) {
    && k <= |ins| && Through(ins[..k], seconds, fallback, float, ks, wss) && Within(ks, k)
    && (burst ==> accepted == Times(ins[..k], ks))
    && (!burst ==> |ks| == k)
  }

  lemma LetThroughNext(ins: seq<Input>, k: nat, seconds: real, fallback: string, float: Exposition.FloatParser,
                       burst: bool, accepted: seq<int>, ks: seq<nat>, wss: seq<seq<DeviceWindow>>,
                       more: Option<seq<DeviceWindow>>)
    returns (ks': seq<nat>, wss': seq<seq<DeviceWindow>>)
    requires k < |ins| && LetThrough(ins, k, seconds, fallback, float, burst, accepted, ks, wss)
    requires more.Some? ==> ReadsAs(ins[k].lines, seconds, fallback, float, more.value)
    requires !burst ==> more.Some?
    ensures wss' == if more.Some? then wss + [more.value] else wss
    ensures LetThrough(ins, k + 1, seconds, fallback, float, burst,
                       if more.Some? && burst then accepted + [ins[k].now] else accepted, ks', wss')
  {
    ks', wss' := ks, wss;
    TimesStep(ins, ks, k);
    if more.Some? {
      ThroughStep(ins, seconds, fallback, float, ks, wss, k, more.value);
      ks', wss' := ks + [k], wss + [more.value];
    } else {
      ThroughMore(ins, seconds, fallback, float, ks, wss, k);
    }
  }

  /** The collector has gone through the first k collections. */
  ghost predicate Progress(c: DcgmCounters.DcgmExporterCollector, ins: seq<Input>, k: nat, seconds: real, fallback: string,
                           float: Exposition.FloatParser, ks: seq<nat>, wss: seq<seq<DeviceWindow>>,
                           outs: seq<seq<DeviceWindow>>)
    reads c
  {
    && c.Valid() && Collected(c, wss, outs)
    && LetThrough(ins, k, seconds, fallback, float, c.profilingBurst, c.accepted, ks, wss)
  }

  method CollectOneMore(c: DcgmCounters.DcgmExporterCollector, ins: seq<Input>, k: nat, seconds: real, fallback: string,
                        float: Exposition.FloatParser, ghost ks: seq<nat>, ghost wss: seq<seq<DeviceWindow>>,
                        outs: seq<seq<DeviceWindow>>)
    returns (outs': seq<seq<DeviceWindow>>, ghost ks': seq<nat>, ghost wss': seq<seq<DeviceWindow>>)
    requires k < |ins| && Progress(c, ins, k, seconds, fallback, float, ks, wss, outs)
    modifies c
    ensures Progress(c, ins, k + 1, seconds, fallback, float, ks', wss', outs')
  {
    ghost var more, accepted := None, c.accepted;
    outs', more := CollectNext(c, ins[k], seconds, fallback, float, wss, outs);
    ks', wss' := LetThroughNext(ins, k, seconds, fallback, float, c.profilingBurst, accepted, ks, wss, more);
  }

  /** A new collector, asked to collect again and again: for either counter the deltas it
      reports of a device are conserved against the readings of the scrapes let through. */
  method CollectScrapes(profilingBurst: bool, burstCap: int, ins: seq<Input>, seconds: real, fallback: string,
                        float: Exposition.FloatParser)
    returns (c: DcgmCounters.DcgmExporterCollector, outs: seq<seq<DeviceWindow>>, ghost ks: seq<nat>,
             ghost wss: seq<seq<DeviceWindow>>)
    ensures fresh(c) && c.Valid() && c.profilingBurst == profilingBurst && c.burstCap == burstCap
    ensures LetThrough(ins, |ins|, seconds, fallback, float, profilingBurst, c.accepted, ks, wss)
    ensures Conserves(wss, outs, DcgmCounters.DbeSample) && Conserves(wss, outs, DcgmCounters.LinkSample)
  {
    c := new DcgmCounters.DcgmExporterCollector(profilingBurst, burstCap);
    outs, ks, wss := CollectAll(c, ins, seconds, fallback, float);
    RunConserves(wss, outs, DcgmCounters.DbeSample);
    RunConserves(wss, outs, DcgmCounters.LinkSample);
  }

  method CollectAll(c: DcgmCounters.DcgmExporterCollector, ins: seq<Input>, seconds: real, fallback: string,
                    float: Exposition.FloatParser)
    returns (outs: seq<seq<DeviceWindow>>, ghost ks: seq<nat>, ghost wss: seq<seq<DeviceWindow>>)
    requires c.Valid() && c.accepted == [] && c.prevDbe == map[] && c.prevLinkErr == map[]
    modifies c
    ensures Progress(c, ins, |ins|, seconds, fallback, float, ks, wss, outs)
  {
    outs, ks, wss := [], [], [];
    NoneYet(ins, seconds, fallback, float, c.profilingBurst);
    for k := 0 to |ins|
      invariant Progress(c, ins, k, seconds, fallback, float, ks, wss, outs)
    {
      outs, ks, wss := CollectOneMore(c, ins, k, seconds, fallback, float, ks, wss, outs);
    }
  }

  lemma NoneYet(ins: seq<Input>, seconds: real, fallback: string, float: Exposition.FloatParser, burst: bool)
    ensures LetThrough(ins, 0, seconds, fallback, float, burst, [], [], [])
  {
  }

  /** outs reports deltas of the readings wss, conserved for every device. */
  ghost predicate Conserves(wss: seq<seq<DeviceWindow>>, outs: seq<seq<DeviceWindow>>,
                            read: DeviceWindow -> DcgmCounters.Sample) {
    RunOf(wss, outs, read) && forall u :: ConservedFor(wss, outs, read, u)
  }

  ghost predicate ConservedFor(wss: seq<seq<DeviceWindow>>, outs: seq<seq<DeviceWindow>>,
                               read: DeviceWindow -> DcgmCounters.Sample, u: string) {
    DcgmCounters.Conserved(DcgmCounters.Values(AllSamples(wss, read), u), DcgmCounters.Values(AllSamples(outs, read), u))
  }

  lemma RunConserves(wss: seq<seq<DeviceWindow>>, outs: seq<seq<DeviceWindow>>, read: DeviceWindow -> DcgmCounters.Sample)
    requires RunOf(wss, outs, read)
    ensures Conserves(wss, outs, read)
  {
    forall u ensures ConservedFor(wss, outs, read, u) {
      DcgmCounters.DeltasConserve(AllSamples(wss, read), u);
    }
  }
}
