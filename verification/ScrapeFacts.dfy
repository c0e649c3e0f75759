/** What a scrape reads (collectors_dcgm.go), by the names of metrics and labels, and which
    lines of an exposition it reads at all. */
module ScrapeFacts {
  import opened Prelude
  import opened Evidence
  import opened Text
  import opened Scrape

  // ---- one device of a scrape, from the samples that name it

  /** The device a sample names, "" if none. */
  function NamedDevice(s: Exposition.Sample): string {
    if "UUID" in s.labels && s.labels["UUID"] != "" then s.labels["UUID"]
    else if "gpu_uuid" in s.labels then s.labels["gpu_uuid"] else ""
  }

  /** The node it comes from, the agent's own unless it says so. */
  function NamedNode(s: Exposition.Sample, own: string): string {
    if "Hostname" in s.labels && s.labels["Hostname"] != "" then s.labels["Hostname"] else own
  }

  function NamedModel(s: Exposition.Sample): string {
    if "modelName" in s.labels then s.labels["modelName"] else ""
  }

  predicate IsTensor(s: Exposition.Sample) {
    s.name == "DCGM_FI_PROF_PIPE_TENSOR_ACTIVE"
  }

  predicate IsEcc(s: Exposition.Sample) {
    s.name == "DCGM_FI_DEV_ECC_DBE_VOL_TOTAL" && s.value >= 0.0
  }

  predicate IsLink(s: Exposition.Sample) {
    && (s.name == "DCGM_FI_DEV_NVLINK_CRC_FLIT_ERROR_COUNT_TOTAL"
        || s.name == "DCGM_FI_DEV_NVLINK_REPLAY_ERROR_COUNT_TOTAL"
        || s.name == "DCGM_FI_DEV_PCIE_REPLAY_COUNTER")
    && s.value >= 0.0
  }

  lemma KindByName(s: Exposition.Sample)
    ensures DcgmKind(s.name) == TensorActive <==> IsTensor(s)
    ensures DcgmKind(s.name) == EccTotal && s.value >= 0.0 <==> IsEcc(s)
    ensures DcgmKind(s.name) == LinkErrors && s.value >= 0.0 <==> IsLink(s)
  {
  }

  type Wanted = Exposition.Sample -> bool

  /** The samples of device u that are wanted, in order. */
  function SamplesOf(samples: seq<Exposition.Sample>, u: string, wanted: Wanted): seq<Exposition.Sample> {
    Select(samples, s => NamedDevice(s) == u && wanted(s))
  }

  /** The readings of device u yield, through f, what g makes of its wanted samples. */
  ghost predicate Yields<T(!new)>(f: Reading -> seq<T>, g: Exposition.Sample -> T, wanted: Wanted, node: string) {
    forall s {:trigger Attributed(s, DcgmKind, node)} ::
      f(Attributed(s, DcgmKind, node)) == if wanted(s) then [g(s)] else []
  }

  /** out is what g makes of own, one by one. */
  ghost predicate MadeOf<T>(out: seq<T>, own: seq<Exposition.Sample>, g: Exposition.Sample -> T) {
    |out| == |own| && forall i :: 0 <= i < |own| ==> out[i] == g(own[i])
  }

  lemma {:induction false} ReadingsYield<T(!new)>(samples: seq<Exposition.Sample>, node: string, u: string,
      f: Reading -> seq<T>, g: Exposition.Sample -> T, wanted: Wanted)
    requires Yields(f, g, wanted, node)
    ensures MadeOf(FlatMap(Select(ReadingsOf(samples, DcgmKind, node), Of(u)), f), SamplesOf(samples, u, wanted), g)
  {
    if samples != [] {
      var n := |samples| - 1;
      ReadingsYield(samples[..n], node, u, f, g, wanted);
      var rs := ReadingsOf(samples, DcgmKind, node);
      assert rs[..n] == ReadingsOf(samples[..n], DcgmKind, node);
      OneMoreReading(rs, u, f);
      OneMoreSample(samples, u, wanted);
      var s := samples[n];
      var counts := NamedDevice(s) == u && wanted(s);
      assert (if rs[n].uuid == u then f(rs[n]) else []) == if counts then [g(s)] else [] by {
        ReadingYields(s, node, u, f, g, wanted);
      }
      MadeByOneMore(FlatMap(Select(rs[..n], Of(u)), f), SamplesOf(samples[..n], u, wanted), g, s, counts);
    }
  }

  lemma MadeByOneMore<T>(out: seq<T>, own: seq<Exposition.Sample>, g: Exposition.Sample -> T, s: Exposition.Sample,
                         counts: bool)
    requires MadeOf(out, own, g)
    ensures MadeOf(out + if counts then [g(s)] else [], own + if counts then [s] else [], g)
  {
  }

  lemma ReadingYields<T(!new)>(s: Exposition.Sample, node: string, u: string, f: Reading -> seq<T>,
                               g: Exposition.Sample -> T, wanted: Wanted)
    requires Yields(f, g, wanted, node)
    ensures var r := Attributed(s, DcgmKind, node);
            r.uuid == NamedDevice(s) && f(r) == if wanted(s) then [g(s)] else []
  {
  }

  lemma OneMoreSample(samples: seq<Exposition.Sample>, u: string, wanted: Wanted)
    requires samples != []
    ensures var n := |samples| - 1;
            SamplesOf(samples, u, wanted) == SamplesOf(samples[..n], u, wanted)
              + if NamedDevice(samples[n]) == u && wanted(samples[n]) then [samples[n]] else []
  {
  }

  lemma OneMoreReading<T>(rs: seq<Reading>, u: string, f: Reading -> seq<T>)
    requires rs != []
    ensures var n := |rs| - 1;
            FlatMap(Select(rs, Of(u)), f)
            == FlatMap(Select(rs[..n], Of(u)), f) + if rs[n].uuid == u then f(rs[n]) else []
  {
    var n := |rs| - 1;
    var before := Select(rs[..n], Of(u));
    if rs[n].uuid == u {
      assert (before + [rs[n]])[..|before|] == before;
    } else {
      assert before + [] == before && FlatMap(before, f) + [] == FlatMap(before, f);
    }
  }

  /** A counter is known iff there are such samples, and then is the last of them. */
  ghost predicate LastOf(own: seq<Exposition.Sample>, known: bool, count: nat) {
    (known <==> own != []) && count == if own == [] then 0 else Floors(own)[|own| - 1]
  }

  function Floors(own: seq<Exposition.Sample>): seq<int> {
    seq(|own|, i requires 0 <= i < |own| => own[i].value.Floor)
  }

  function Plus(ns: seq<int>): int {
    if ns == [] then 0 else Plus(ns[..|ns| - 1]) + ns[|ns| - 1]
  }

  lemma {:induction false} PlusIsSum(ns: seq<nat>)
    ensures Plus(ns) == DcgmCounters.Sum(ns)
  {
    if ns != [] {
      PlusIsSum(ns[..|ns| - 1]);
    }
  }

  /** The count of a sample. */
  function Floor(s: Exposition.Sample): nat {
    if s.value >= 0.0 then s.value.Floor else 0
  }

  function SecondsOf(seconds: real): Exposition.Sample -> real {
    (s: Exposition.Sample) => s.value * seconds
  }

  lemma EccYields(node: string)
    ensures Yields(CountsOf(EccTotal), Floor, IsEcc, node)
  {
    forall s ensures CountsOf(EccTotal)(Attributed(s, DcgmKind, node)) == if IsEcc(s) then [Floor(s)] else [] {
      KindByName(s);
    }
  }

  lemma LinkYields(node: string)
    ensures Yields(CountsOf(LinkErrors), Floor, IsLink, node)
  {
    forall s ensures CountsOf(LinkErrors)(Attributed(s, DcgmKind, node)) == if IsLink(s) then [Floor(s)] else [] {
      KindByName(s);
    }
  }

  lemma TensorYields(node: string, seconds: real)
    ensures Yields(TensorSecsOf(seconds), SecondsOf(seconds), IsTensor, node)
  {
    forall s ensures TensorSecsOf(seconds)(Attributed(s, DcgmKind, node))
                     == if IsTensor(s) then [SecondsOf(seconds)(s)] else [] {
      KindByName(s);
      var r := Attributed(s, DcgmKind, node);
      assert r.value == s.value && Seconds(r, seconds) == SecondsOf(seconds)(s);
    }
  }

  /** The counts of a device's readings are those of its wanted samples. */
  lemma CountsAre(samples: seq<Exposition.Sample>, node: string, u: string, k: Kind, wanted: Wanted)
    requires Yields(CountsOf(k), Floor, wanted, node)
    requires forall s :: wanted(s) ==> s.value >= 0.0
    ensures FlatMap(Select(ReadingsOf(samples, DcgmKind, node), Of(u)), CountsOf(k)) == Floors(SamplesOf(samples, u, wanted))
  {
    ReadingsYield(samples, node, u, CountsOf(k), Floor, wanted);
    FloorsOfWanted(samples, u, wanted);
  }

  lemma FloorsOfWanted(samples: seq<Exposition.Sample>, u: string, wanted: Wanted)
    requires forall s :: wanted(s) ==> s.value >= 0.0
    ensures var own := SamplesOf(samples, u, wanted); forall i :: 0 <= i < |own| ==> Floors(own)[i] == Floor(own[i])
  {
    var own := SamplesOf(samples, u, wanted);
    Wants(samples, u, wanted);
    forall i | 0 <= i < |own| ensures Floors(own)[i] == Floor(own[i]) {
      assert own[i] in own;
    }
  }

  lemma {:induction false} Wants(samples: seq<Exposition.Sample>, u: string, wanted: Wanted)
    ensures forall s :: s in SamplesOf(samples, u, wanted) ==> wanted(s)
  {
    if samples != [] {
      Wants(samples[..|samples| - 1], u, wanted);
    }
  }

  lemma EccOfDevice(samples: seq<Exposition.Sample>, seconds: real, node: string, u: string)
    ensures var w := Described(seconds, ReadingsOf(samples, DcgmKind, node), u);
            LastOf(SamplesOf(samples, u, IsEcc), w.eccKnown, w.eccErrs)
  {
    EccYields(node);
    CountsAre(samples, node, u, EccTotal, IsEcc);
  }

  lemma LinkOfDevice(samples: seq<Exposition.Sample>, seconds: real, node: string, u: string)
    ensures var w := Described(seconds, ReadingsOf(samples, DcgmKind, node), u);
            SumOf(SamplesOf(samples, u, IsLink), w.linkKnown, w.linkErrs)
  {
    LinkYields(node);
    CountsAre(samples, node, u, LinkErrors, IsLink);
    PlusIsSum(FlatMap(Select(ReadingsOf(samples, DcgmKind, node), Of(u)), CountsOf(LinkErrors)));
  }

  lemma TensorOfDevice(samples: seq<Exposition.Sample>, seconds: real, node: string, u: string)
    ensures var w := Described(seconds, ReadingsOf(samples, DcgmKind, node), u);
            LastRatio(SamplesOf(samples, u, IsTensor), seconds, w.tensorKnown, w.tensorSecs)
  {
    TensorYields(node, seconds);
    ReadingsYield(samples, node, u, TensorSecsOf(seconds), SecondsOf(seconds), IsTensor);
  }

  predicate HasModel(s: Exposition.Sample) { NamedModel(s) != "" }

  function HasNode(own: string): Wanted { s => NamedNode(s, own) != "" }

  /** The node is the first one named, likewise the model. */
  ghost predicate NamedBy(samples: seq<Exposition.Sample>, own: string, u: string, node: string, model: string) {
    var hosts, models := SamplesOf(samples, u, HasNode(own)), SamplesOf(samples, u, HasModel);
    && node == (if hosts == [] then "" else NamedNode(hosts[0], own))
    && model == (if models == [] then "" else NamedModel(models[0]))
  }

  lemma NamesOfDevice(samples: seq<Exposition.Sample>, seconds: real, node: string, u: string)
    ensures var w := Described(seconds, ReadingsOf(samples, DcgmKind, node), u);
            NamedBy(samples, node, u, w.node, w.model)
  {
    ReadingsYield(samples, node, u, Nodes, (s: Exposition.Sample) => NamedNode(s, node), HasNode(node));
    ReadingsYield(samples, node, u, Models, NamedModel, HasModel);
  }

  /** The tensor time is the last ratio over the window. */
  ghost predicate LastRatio(own: seq<Exposition.Sample>, seconds: real, known: bool, secs: real) {
    (known <==> own != []) && (own != [] ==> secs == own[|own| - 1].value * seconds)
  }

  /** The count is the sum of all. */
  ghost predicate SumOf(own: seq<Exposition.Sample>, known: bool, count: nat) {
    (known <==> own != []) && count == Plus(Floors(own))
  }

  /** w is what the samples that name its device say: the last tensor ratio over the window,
      the last double-bit total, the sum of the three link counters, the first node and
      model; fractions dropped and negative totals passed over. Nothing else is known. */
  ghost predicate SaidBy(samples: seq<Exposition.Sample>, seconds: real, node: string, w: DeviceWindow) {
    && w.windowSeconds == seconds && !w.peakKnown && !w.costKnown && !w.achievedKnown
    && LastRatio(SamplesOf(samples, w.uuid, IsTensor), seconds, w.tensorKnown, w.tensorSecs)
    && LastOf(SamplesOf(samples, w.uuid, IsEcc), w.eccKnown, w.eccErrs)
    && SumOf(SamplesOf(samples, w.uuid, IsLink), w.linkKnown, w.linkErrs)
    && NamedBy(samples, node, w.uuid, w.node, w.model)
  }

  lemma DescribedIsSaid(samples: seq<Exposition.Sample>, seconds: real, node: string, u: string)
    ensures var w := Described(seconds, ReadingsOf(samples, DcgmKind, node), u);
            w.uuid == u && SaidBy(samples, seconds, node, w)
  {
    EccOfDevice(samples, seconds, node, u);
    LinkOfDevice(samples, seconds, node, u);
    TensorOfDevice(samples, seconds, node, u);
    NamesOfDevice(samples, seconds, node, u);
  }

  /** A scrape has a window for exactly the devices that a sample names, and each says what
      those samples say. */
  lemma WindowsAreSaid(samples: seq<Exposition.Sample>, seconds: real, node: string, ws: seq<DeviceWindow>)
    requires IsScrape(seconds, ReadingsOf(samples, DcgmKind, node), ws)
    ensures forall i :: 0 <= i < |ws| ==> ws[i].uuid != "" && SaidBy(samples, seconds, node, ws[i])
    ensures forall u :: u != "" ==> (Listed(ws, u) <==> exists s :: s in samples && NamedDevice(s) == u)
  {
    forall i | 0 <= i < |ws| ensures SaidBy(samples, seconds, node, ws[i]) {
      DescribedIsSaid(samples, seconds, node, ws[i].uuid);
    }
    forall u | u != "" ensures Listed(ws, u) <==> exists s :: s in samples && NamedDevice(s) == u {
      MentionedIff(samples, node, u);
    }
  }

  lemma MentionedIff(samples: seq<Exposition.Sample>, node: string, u: string)
    ensures Mentioned(ReadingsOf(samples, DcgmKind, node), u) <==> exists s :: s in samples && NamedDevice(s) == u
  {
    var rs := ReadingsOf(samples, DcgmKind, node);
    assert forall i :: 0 <= i < |samples| ==> rs[i].uuid == NamedDevice(samples[i]);
    if s :| s in samples && NamedDevice(s) == u {
      var i :| 0 <= i < |samples| && samples[i] == s;
      assert rs[i] in rs && rs[i].uuid == u;
    }
    if Mentioned(rs, u) {
      var i :| 0 <= i < |rs| && rs[i].uuid == u;
      assert samples[i] in samples && NamedDevice(samples[i]) == u;
    }
  }

  // ---- lines

  lemma {:induction false} TokenSurvivesTrim(token: string, rest: string) returns (kept: string)
    requires token != "" && Exposition.NoSpace(token)
    ensures TrimRight(token + rest) == token + kept && kept <= rest
  {
    if rest == "" || !IsSpace(rest[|rest| - 1]) {
      kept := rest;
      assert (token + rest)[|token + rest| - 1] == if rest == "" then token[|token| - 1] else rest[|rest| - 1];
    } else {
      assert (token + rest)[..|token + rest| - 1] == token + rest[..|rest| - 1];
      kept := TokenSurvivesTrim(token, rest[..|rest| - 1]);
    }
  }

  /** rest is what stands between a field and the end of its line. */
  predicate Follows(rest: string, token: string) {
    Exposition.NoSpace(token) && (rest == "" || (token != "" && IsSpace(rest[0])))
  }

  lemma FieldAfterBlanks(pad: string, token: string, rest: string)
    requires AllSpace(pad) && Follows(rest, token)
    ensures Exposition.FirstField(pad + (token + rest)) == (token, rest)
  {
    LeftTrimmed(pad, token + rest);
    if token != "" {
      assert TrimLeft(token + rest) == token + rest;
      Exposition.FieldOfToken(token, rest);
    }
  }

  lemma FieldOfTail(pad: string, token: string, rest: string)
    requires AllSpace(pad) && Follows(rest, token)
    ensures Exposition.FirstField(TrimSpace(pad + (token + rest))).0 == token
  {
    LeftTrimmed(pad, token + rest);
    if token != "" {
      var kept := TokenSurvivesTrim(token, rest);
      FieldAfterBlanks("", token, kept);
      assert "" + (token + kept) == token + kept;
    } else {
      assert token + rest == "";
    }
  }

  /** What a name, labels and a value token make, if the token is a number. */
  function Made(name: string, labels: Exposition.Labels, token: string, float: Exposition.FloatParser)
    : Option<Exposition.Sample>
  {
    if token == "" || float(token).None? then None else Some(Exposition.Sample(name, labels, float(token).value))
  }

  /** Any line with a pair of braces: the name stands before, the labels between, and the
      value is the first field after; a line without one, or no number, is malformed. */
  lemma BracedLineReads(name: string, labels: string, pad: string, token: string, rest: string,
                        float: Exposition.FloatParser)
    requires '{' !in name && '}' !in labels && AllSpace(pad) && Follows(rest, token)
    ensures Exposition.SampleOf(name + "{" + labels + "}" + (pad + (token + rest)), float)
            == Made(TrimSpace(name), Exposition.LabelsOf(labels), token, float)
  {
    Exposition.CutAtBraces(name, labels, pad + (token + rest));
    FieldOfTail(pad, token, rest);
  }

  /** A brace that is not closed makes a line malformed. */
  lemma UnclosedLineFails(name: string, rest: string, float: Exposition.FloatParser)
    requires '{' !in name && '}' !in rest
    ensures Exposition.SampleOf(name + ['{'] + rest, float) == None
  {
    IndexAfter(name, '{', rest);
    assert (name + ['{'] + rest)[|name| + 1..] == rest;
  }

  /** Any line without braces: its first two fields are name and value; with fewer fields,
      or no number, it is malformed. */
  lemma BareLineReads(pad: string, name: string, gap: string, token: string, rest: string,
                      float: Exposition.FloatParser)
    requires AllSpace(pad) && AllSpace(gap) && Follows(rest, token) && Follows(gap + (token + rest), name)
    requires '{' !in pad + (name + (gap + (token + rest)))
    ensures Exposition.SampleOf(pad + (name + (gap + (token + rest))), float)
            == if name == "" then None else Made(name, map[], token, float)
  {
    FieldAfterBlanks(pad, name, gap + (token + rest));
    FieldAfterBlanks(gap, token, rest);
    if name != "" {
      TrimmedIsFixed(name);
    }
  }

  /** A trimmed value less a quote at either end. */
  function SansQuotes(v: string): string {
    var w := if v != "" && v[0] == '"' then v[1..] else v;
    if w != "" && w[|w| - 1] == '"' then w[..|w| - 1] else w
  }

  lemma UnquotedIsSansQuotes(v: string)
    ensures Exposition.Unquoted(v) == SansQuotes(v)
  {
    OneQuote(v);
    OneQuote(TrimPrefix(v, "\""));
  }

  /** A part of a label list without an equals sign is passed over; with one, what stands
      before the first names the label and what stands after, less a quote at either end,
      is its value; spaces around either do not count. */
  lemma PartsAreLabels(m: Exposition.Labels, key: string, value: string)
    requires '=' !in key
    ensures Exposition.LabelAfter(m, key) == m
    ensures Exposition.LabelAfter(m, key + ['='] + value) == m[TrimSpace(key) := SansQuotes(TrimSpace(value))]
  {
    IndexAfter(key, '=', value);
    var kv := key + ['='] + value;
    assert kv[..|key|] == key && kv[|key| + 1..] == value;
    UnquotedIsSansQuotes(TrimSpace(value));
  }

  lemma OneQuote(v: string)
    ensures TrimPrefix(v, "\"") == if v != "" && v[0] == '"' then v[1..] else v
    ensures TrimSuffix(v, "\"") == if v != "" && v[|v| - 1] == '"' then v[..|v| - 1] else v
  {
    if v != "" {
      assert v[..1] == [v[0]] && v[|v| - 1..] == [v[|v| - 1]];
    }
  }

  /** out holds the samples of the lines that read as one, in order; blank lines, comments
      and malformed lines are passed over. */
  ghost predicate SamplesAre(lines: seq<string>, float: Exposition.FloatParser, out: seq<Exposition.Sample>) {
    var hits := Select(lines, text => var line := TrimSpace(text);
                                      line != "" && line[0] != '#' && Exposition.SampleOf(line, float).Some?);
    && |out| == |hits|
    && forall i :: 0 <= i < |hits| ==> Exposition.SampleOf(TrimSpace(hits[i]), float) == Some(out[i])
  }

  lemma {:induction false} ScannedAre(lines: seq<string>, float: Exposition.FloatParser, read: LineReader)
    requires forall line :: ReadAs(read, float, line)
    ensures SamplesAre(lines, float, FlatMap(lines, LineSample(read)))
  {
    if lines != [] {
      var n := |lines| - 1;
      ScannedAre(lines[..n], float, read);
      var line := TrimSpace(lines[n]);
      assert ReadAs(read, float, line);
      assert HasPrefix(line, "#") <==> line != "" && line[0] == '#' by {
        assert line != "" ==> line[..1] == [line[0]];
      }
    }
  }

  /** From text to windows: what a scrape reads off its lines is what the samples on these
      lines say of each device that they name. */
  lemma ScrapeIsExact(lines: seq<string>, seconds: real, node: string, float: Exposition.FloatParser,
                      ws: seq<DeviceWindow>)
    returns (samples: seq<Exposition.Sample>)
    requires ReadsAs(lines, seconds, node, float, ws)
    ensures SamplesAre(lines, float, samples)
    ensures forall i :: 0 <= i < |ws| ==> ws[i].uuid != "" && SaidBy(samples, seconds, node, ws[i])
    ensures forall u :: u != "" ==> (Listed(ws, u) <==> exists s :: s in samples && NamedDevice(s) == u)
  {
    var read :| (forall line :: ReadAs(read, float, line))
                && IsScrape(seconds, ReadingsOf(FlatMap(lines, LineSample(read)), DcgmKind, node), ws);
    samples := FlatMap(lines, LineSample(read));
    ScannedAre(lines, float, read);
    WindowsAreSaid(samples, seconds, node, ws);
  }
}
